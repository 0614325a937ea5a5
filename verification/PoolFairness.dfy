/** Weighted round-robin over whole runs of reservations and releases
    (packages/archive-core/src/scheduler.ts:605-668 and 670-719). */
module PoolFairness {
  import opened Options
  import opened Proxies
  import opened PoolConfiguration
  import opened WorkerPool
  import opened PoolInvariants
  import WRR = WeightedRoundRobin

  lemma SameAsNow(proxies: ProxyStates, changed: ProxyStates)
    requires forall id: ProxyId :: StateOf(changed, id).smoothWeight == StateOf(proxies, id).smoothWeight
    ensures WRR.SameScores(Scores(changed), Scores(proxies))
  {
    forall id: ProxyId ensures WRR.Score(Scores(changed), id) == WRR.Score(Scores(proxies), id) {
      ScoreIsWeight(changed, id);
      ScoreIsWeight(proxies, id);
    }
  }

  lemma ScoreIsWeight(proxies: ProxyStates, id: ProxyId)
    ensures WRR.Score(Scores(proxies), id) == StateOf(proxies, id).smoothWeight
  {
  }

  lemma SameScoresTrans(a: WRR.Scores, b: WRR.Scores, c: WRR.Scores)
    requires WRR.SameScores(a, b) && WRR.SameScores(b, c)
    ensures WRR.SameScores(a, c)
  {
  }

  /** A weighted selection is one call of the round robin on the scores of the pool. */
  lemma SelectionIsACall(z: Settings, proxies: ProxyStates, offer: Offer, cs: seq<ProxyMetadata>)
    requires ValidSettings(z) && z.cfg.selectionPolicy != LeastLoaded
    requires cs != [] && Candidates(z, proxies, offer, None) == cs
    ensures var s := SelectFrom(z, proxies, offer, None);
            && s.proxy == Some(WRR.Selected(Scores(proxies), cs))
            && WRR.SameScores(Scores(s.proxies), WRR.After(Scores(proxies), cs))
  {
    var touched := Touched(z, proxies, offer, None, |offer.proxies|);
    forall id: ProxyId ensures StateOf(touched, id).smoothWeight == StateOf(proxies, id).smoothWeight {
      TouchedKeepsLoads(z, proxies, offer, None, |offer.proxies|, id);
    }
    SameAsNow(proxies, touched);
    WRR.CallRespectsScores(Scores(touched), Scores(proxies), cs);
    SomethingSelected(z, proxies, offer, cs);
    var after := WRR.After(Scores(touched), cs);
    RaiseKeepsKeys(Scores(touched), cs, |cs|);
    var s := SelectFrom(z, proxies, offer, None);
    forall id: ProxyId ensures WRR.Score(Scores(s.proxies), id) == WRR.Score(after, id) {
      WithScoresKeepsLoads(touched, after, id);
      ScoreIsWeight(s.proxies, id);
    }
    SameScoresTrans(Scores(s.proxies), after, WRR.After(Scores(proxies), cs));
  }

  lemma SomethingSelected(z: Settings, proxies: ProxyStates, offer: Offer, cs: seq<ProxyMetadata>)
    requires ValidSettings(z) && cs != [] && Candidates(z, proxies, offer, None) == cs
    ensures SelectFrom(z, proxies, offer, None).proxy.Some?
  {
    assert cs[0] in Candidates(z, proxies, offer, None);
    CandidateIsUsable(z, proxies, offer, None, cs[0]);
    SelectsWhenUsable(z, proxies, offer, None);
  }

  // ----- Runs -----

  /** The proxy that a move reserves, if any. */
  function TakenAt(z: Settings, moves: seq<Move>, k: nat): Option<ProxyId>
    requires ValidSettings(z) && k < |moves|
  {
    var m, pool := moves[k], After(z, moves, k);
    if m.TryReserve? then
      var answer := Reserve(z, pool, m.paused, m.workerId, m.idValid, m.job, m.offer).1;
      if answer.Granted? && answer.reservation.proxy.Some? then Some(answer.reservation.proxy.value.id) else None
    else None
  }

  /** How many reservations the first `n` moves make, and how many of them on one proxy. */
  function Taken(z: Settings, moves: seq<Move>, n: nat): nat
    requires ValidSettings(z) && n <= |moves|
  {
    if n == 0 then 0 else Taken(z, moves, n - 1) + (if TakenAt(z, moves, n - 1).Some? then 1 else 0)
  }

  function TakenOn(z: Settings, moves: seq<Move>, n: nat, id: ProxyId): nat
    requires ValidSettings(z) && n <= |moves|
  {
    if n == 0 then 0 else TakenOn(z, moves, n - 1, id) + (if TakenAt(z, moves, n - 1) == Some(id) then 1 else 0)
  }

  /** Jobs without a proxy of their own, and always the same candidates. */
  predicate Steady(z: Settings, moves: seq<Move>, cs: seq<ProxyMetadata>)
    requires ValidSettings(z)
  {
    forall k :: 0 <= k < |moves| && moves[k].TryReserve? ==>
      && moves[k].job.sessionProxyId.None? && moves[k].job.proxyId.None?
      && Candidates(z, After(z, moves, k).proxies, moves[k].offer, None) == cs
  }

  lemma MoveIsACall(z: Settings, moves: seq<Move>, k: nat, cs: seq<ProxyMetadata>)
    requires ValidSettings(z) && z.cfg.connectionMode != Direct && z.cfg.selectionPolicy != LeastLoaded
    requires cs != [] && Steady(z, moves, cs) && k < |moves|
    ensures var now, next := Scores(After(z, moves, k).proxies), Scores(After(z, moves, k + 1).proxies);
            if TakenAt(z, moves, k).Some?
            then
              && TakenAt(z, moves, k).value == WRR.Selected(now, cs).id
              && WRR.SameScores(next, WRR.After(now, cs))
            else WRR.SameScores(next, now)
  {
    var m, pool := moves[k], After(z, moves, k);
    if m.TryReserve? {
      SelectionIsACall(z, pool.proxies, m.offer, cs);
      ReservingKeepsScores(z, pool, m);
    } else {
      ReleasingKeepsScores(z, pool, m);
    }
  }

  lemma ReleasingKeepsScores(z: Settings, pool: Pool, m: Move)
    requires ValidSettings(z) && m.ReleaseWorker?
    ensures WRR.SameScores(Scores(Next(z, pool, m).proxies), Scores(pool.proxies))
  {
    SameAsNow(pool.proxies, Next(z, pool, m).proxies);
  }

  lemma ReservingKeepsScores(z: Settings, pool: Pool, m: Move)
    requires ValidSettings(z) && z.cfg.connectionMode != Direct && m.TryReserve?
    requires SelectFrom(z, pool.proxies, m.offer, None).proxy.Some?
    requires m.job.sessionProxyId.None? && m.job.proxyId.None?
    ensures var s := SelectFrom(z, pool.proxies, m.offer, None);
            var answer := Reserve(z, pool, m.paused, m.workerId, m.idValid, m.job, m.offer).1;
            && (answer.Granted? ==>
                  && answer.reservation.proxy == s.proxy
                  && WRR.SameScores(Scores(Next(z, pool, m).proxies), Scores(s.proxies)))
            && (!answer.Granted? ==> WRR.SameScores(Scores(Next(z, pool, m).proxies), Scores(pool.proxies)))
  {
    hide SelectFrom, Scores;
    var s := SelectFrom(z, pool.proxies, m.offer, None);
    var answer := Reserve(z, pool, m.paused, m.workerId, m.idValid, m.job, m.offer).1;
    if answer.Granted? {
      SameAsNow(s.proxies, Next(z, pool, m).proxies);
    }
  }

  /** Whatever is released meanwhile, the scores of the pool are those of as many calls as there were reservations, and
      each proxy has been reserved as often as those calls pick it. */
  lemma {:induction false} RunIsCalls(z: Settings, moves: seq<Move>, n: nat, cs: seq<ProxyMetadata>, id: ProxyId)
    requires ValidSettings(z) && z.cfg.connectionMode != Direct && z.cfg.selectionPolicy != LeastLoaded
    requires cs != [] && Steady(z, moves, cs) && n <= |moves|
    ensures WRR.SameScores(Scores(After(z, moves, n).proxies), WRR.Run(cs, Taken(z, moves, n)))
    ensures TakenOn(z, moves, n, id) == WRR.Picks(cs, Taken(z, moves, n), id)
  {
    hide Steady, Next, WRR.Selected, WRR.After, Reserve;
    if n > 0 {
      var calls := Taken(z, moves, n - 1);
      var now := Scores(After(z, moves, n - 1).proxies);
      RunIsCalls(z, moves, n - 1, cs, id);
      MoveIsACall(z, moves, n - 1, cs);
      hide Scores, TakenAt;
      WRR.CallRespectsScores(now, WRR.Run(cs, calls), cs);
      if TakenAt(z, moves, n - 1).Some? {
        SameScoresTrans(Scores(After(z, moves, n).proxies), WRR.After(now, cs), WRR.Run(cs, calls + 1));
        WRR.PicksStep(cs, calls, id);
      } else {
        SameScoresTrans(Scores(After(z, moves, n).proxies), now, WRR.Run(cs, calls));
      }
    }
  }

  /** Under weighted selection, as many consecutive reservations as the total weight, whatever is released between
      them, reserve each proxy exactly as often as its weight. */
  lemma ReservationsAreFair(z: Settings, moves: seq<Move>, i: nat, j: nat, cs: seq<ProxyMetadata>, p: nat)
    requires ValidSettings(z) && z.cfg.connectionMode != Direct && z.cfg.selectionPolicy != LeastLoaded
    requires Steady(z, moves, cs) && i <= j <= |moves| && p < |cs| && DistinctIds(cs) && Weighted(cs)
    requires Taken(z, moves, j) == Taken(z, moves, i) + WRR.TotalWeight(cs)
    ensures TakenOn(z, moves, j, cs[p].id) == TakenOn(z, moves, i, cs[p].id) + cs[p].weight
  {
    hide Steady, Taken, TakenOn, ValidSettings, PoolInvariants.After, WRR.Picks, WRR.Run, WRR.SameScores, Scores;
    RunIsCalls(z, moves, i, cs, cs[p].id);
    RunIsCalls(z, moves, j, cs, cs[p].id);
    WRR.WeightPositive(cs, |cs|);
    WRR.EveryWindowIsFair(cs, WRR.TotalWeight(cs), Taken(z, moves, i), p);
  }
}
