/** Which proxy a reservation gets: leading priority, then the selection policy; and the scores over
    whole runs (packages/archive-core/src/scheduler.ts:605-643). */
module PoolSelection {
  import opened Options
  import opened Proxies
  import opened PoolConfiguration
  import opened WorkerPool
  import opened PoolInvariants
  import Sorting
  import WeightedRoundRobin

  predicate Sorted(proxies: seq<ProxyMetadata>) {
    forall i, j :: 0 <= i < j < |proxies| ==> !Before(proxies[j], proxies[i])
  }

  lemma {:induction false} SortedPairs(proxies: seq<ProxyMetadata>)
    requires Sorting.Sorted(NotAfter, proxies)
    ensures Sorted(proxies)
  {
    if proxies != [] {
      SortedPairs(proxies[1..]);
      forall i, j | 0 <= i < j < |proxies| ensures !Before(proxies[j], proxies[i]) {
        assert proxies[j] == proxies[1..][j - 1];
        if i == 0 {
          assert NotAfter(proxies[0], proxies[1..][j - 1]);
        } else {
          assert proxies[i] == proxies[1..][i - 1];
        }
      }
    }
  }

  lemma SortIsSorted(proxies: seq<ProxyMetadata>)
    ensures Sorted(Sort(proxies))
  {
    NotAfterOrder();
    Sorting.SortIsSorted(NotAfter, proxies);
    SortedPairs(Sort(proxies));
  }

  lemma TwoPlaces(proxies: seq<ProxyMetadata>, i: nat, j: nat)
    requires i < j < |proxies| && proxies[i] == proxies[j]
    ensures multiset(proxies)[proxies[i]] >= 2
  {
    assert proxies == proxies[..j] + [proxies[j]] + proxies[j + 1..];
    assert proxies[..j][i] in multiset(proxies[..j]);
  }

  lemma {:induction false} OnePlace(proxies: seq<ProxyMetadata>, p: ProxyMetadata)
    requires DistinctIds(proxies)
    ensures multiset(proxies)[p] <= 1
  {
    if proxies != [] {
      OnePlace(proxies[1..], p);
      assert proxies == [proxies[0]] + proxies[1..];
      forall j | 0 <= j < |proxies| - 1 ensures proxies[1..][j].id != proxies[0].id {
        assert proxies[1..][j] == proxies[j + 1];
      }
    }
  }

  lemma SortDistinct(proxies: seq<ProxyMetadata>)
    requires DistinctIds(proxies)
    ensures DistinctIds(Sort(proxies))
  {
    var sorted := Sort(proxies);
    forall i, j | 0 <= i < j < |sorted| ensures sorted[i].id != sorted[j].id {
      SortedMembers(proxies, sorted[i]);
      SortedMembers(proxies, sorted[j]);
      OnePlace(proxies, sorted[i]);
      if sorted[i] == sorted[j] {
        TwoPlaces(sorted, i, j);
      }
    }
  }

  lemma {:induction false} UsableDistinct(z: Settings, proxies: ProxyStates, offer: Offer, requested: Option<ProxyId>,
                                          n: nat)
    requires DistinctIds(offer.proxies) && n <= |offer.proxies|
    ensures DistinctIds(UsableUpTo(z, proxies, offer, requested, n))
  {
    if n > 0 {
      var before := UsableUpTo(z, proxies, offer, requested, n - 1);
      UsableDistinct(z, proxies, offer, requested, n - 1);
      forall i | 0 <= i < |before| ensures before[i].id != offer.proxies[n - 1].id {
        UsableMembers(z, proxies, offer, requested, n - 1, before[i]);
      }
    }
  }

  lemma {:induction false} LeadingDistinct(sorted: seq<ProxyMetadata>, n: nat)
    requires DistinctIds(sorted) && n <= |sorted|
    ensures DistinctIds(Leading(sorted, n))
  {
    if n > 0 {
      var before := Leading(sorted, n - 1);
      LeadingDistinct(sorted, n - 1);
      forall i | 0 <= i < |before| ensures before[i].id != sorted[n - 1].id {
        LeadingMembers(sorted, n - 1, before[i]);
      }
    }
  }

  lemma CandidatesDistinct(z: Settings, proxies: ProxyStates, offer: Offer, requested: Option<ProxyId>)
    requires DistinctIds(offer.proxies)
    ensures DistinctIds(Candidates(z, proxies, offer, requested))
  {
    var usable := UsableUpTo(z, proxies, offer, requested, |offer.proxies|);
    UsableDistinct(z, proxies, offer, requested, |offer.proxies|);
    SortDistinct(usable);
    LeadingDistinct(Sort(usable), |Sort(usable)|);
  }

  /** The candidates are the usable proxies of the leading priority, in order of their identifiers. */
  lemma CandidatesLead(z: Settings, proxies: ProxyStates, offer: Offer, requested: Option<ProxyId>, p: ProxyMetadata)
    ensures p in Candidates(z, proxies, offer, requested)
       <==> && p in offer.proxies && Usable(z, proxies, offer, requested, p)
            && forall q :: q in offer.proxies && Usable(z, proxies, offer, requested, q) ==> p.priority <= q.priority
  {
    var usable := UsableUpTo(z, proxies, offer, requested, |offer.proxies|);
    var sorted := Sort(usable);
    SortIsSorted(usable);
    assert sorted[..|sorted|] == sorted && offer.proxies[..|offer.proxies|] == offer.proxies;
    LeadingMembers(sorted, |sorted|, p);
    forall q ensures q in sorted <==> q in offer.proxies && Usable(z, proxies, offer, requested, q) {
      SortedMembers(usable, q);
      UsableMembers(z, proxies, offer, requested, |offer.proxies|, q);
    }
    if sorted != [] {
      assert sorted[0] in sorted;
    }
  }

  /** The selected proxy is a candidate, whatever the policy. */
  lemma SelectedLeads(z: Settings, proxies: ProxyStates, offer: Offer, requested: Option<ProxyId>)
    requires ValidSettings(z)
    ensures var s := SelectFrom(z, proxies, offer, requested);
            s.proxy.Some? ==>
              && s.proxy.value in Candidates(z, proxies, offer, requested)
              && forall q :: q in offer.proxies && Usable(z, proxies, offer, requested, q) ==>
                   s.proxy.value.priority <= q.priority
  {
    var candidates := Candidates(z, proxies, offer, requested);
    var s := SelectFrom(z, proxies, offer, requested);
    if s.proxy.Some? {
      var touched := Touched(z, proxies, offer, requested, |offer.proxies|);
      CandidateCapacity(z, proxies, offer, requested);
      ChooseKeepsLoads(z, touched, candidates, requested, s.proxy.value.id);
      CandidatesLead(z, proxies, offer, requested, s.proxy.value);
    }
  }

  lemma {:induction false} LightestIsLightest(z: Settings, proxies: ProxyStates, candidates: seq<ProxyMetadata>, n: nat,
                                              j: nat)
    requires j < n <= |candidates|
    requires forall i :: 0 <= i < |candidates| ==> Capacity(z, candidates[i]) >= 1
    ensures !LighterThan(z, proxies, candidates[j], candidates[Lightest(z, proxies, candidates, n)])
  {
    if n > 1 && j < n - 1 {
      LightestIsLightest(z, proxies, candidates, n - 1, j);
    }
  }

  lemma CrossMultiply(a: nat, b: nat, c: nat, d: nat)
    requires b >= 1 && d >= 1 && a as real / b as real <= c as real / d as real
    ensures a * d <= c * b
  {
    var x := a as real / b as real;
    var y := c as real / d as real;
    assert x * b as real == a as real && y * d as real == c as real;
    assert (y - x) * (b as real * d as real) >= 0.0;
    assert (a * d) as real == x * b as real * d as real && (c * b) as real == y * d as real * b as real;
  }

  /** The least-loaded policy picks, among the usable proxies of the leading priority, one whose active
      workers are the smallest share of its capacity. */
  lemma LeastLoadedPick(z: Settings, proxies: ProxyStates, offer: Offer, q: ProxyMetadata)
    requires ValidSettings(z) && z.cfg.selectionPolicy == LeastLoaded
    requires q in Candidates(z, proxies, offer, None)
    ensures var s := SelectFrom(z, proxies, offer, None);
            && s.proxy.Some? && s.proxy.value in Candidates(z, proxies, offer, None)
            && StateOf(proxies, s.proxy.value.id).activeWorkers * Capacity(z, q)
            <= StateOf(proxies, q.id).activeWorkers * Capacity(z, s.proxy.value)
  {
    var candidates := Candidates(z, proxies, offer, None);
    var touched := Touched(z, proxies, offer, None, |offer.proxies|);
    CandidateCapacity(z, proxies, offer, None);
    CandidateIsUsable(z, proxies, offer, None, q);
    SelectsWhenUsable(z, proxies, offer, None);
    var j :| 0 <= j < |candidates| && candidates[j] == q;
    var w := Lightest(z, touched, candidates, |candidates|);
    LightestIsLightest(z, touched, candidates, |candidates|, j);
    TouchedKeepsLoads(z, proxies, offer, None, |offer.proxies|, q.id);
    TouchedKeepsLoads(z, proxies, offer, None, |offer.proxies|, candidates[w].id);
    CrossMultiply(StateOf(touched, candidates[w].id).activeWorkers, Capacity(z, candidates[w]),
                  StateOf(touched, q.id).activeWorkers, Capacity(z, q));
  }

  // ----- Scores over whole runs -----

  lemma SumDependsOnScores(ids: seq<ProxyId>, n: nat, a: WeightedRoundRobin.Scores, b: WeightedRoundRobin.Scores)
    requires n <= |ids| && forall id: ProxyId :: WeightedRoundRobin.Score(a, id) == WeightedRoundRobin.Score(b, id)
    ensures WeightedRoundRobin.SumUpTo(ids, n, a) == WeightedRoundRobin.SumUpTo(ids, n, b)
  {
  }

  /** Selection leaves the scores alone, or moves them by one weighted round-robin call on the candidates. */
  lemma SelectFromScores(z: Settings, proxies: ProxyStates, offer: Offer, requested: Option<ProxyId>, ids: seq<ProxyId>)
    requires ValidSettings(z) && WeightedRoundRobin.Distinct(ids)
    requires forall i :: 0 <= i < |offer.proxies| ==> offer.proxies[i].id in ids
    ensures WeightedRoundRobin.SumScores(ids, Scores(SelectFrom(z, proxies, offer, requested).proxies))
         == WeightedRoundRobin.SumScores(ids, Scores(proxies))
  {
    var touched := Touched(z, proxies, offer, requested, |offer.proxies|);
    var candidates := Candidates(z, proxies, offer, requested);
    forall id: ProxyId ensures WeightedRoundRobin.Score(Scores(touched), id)
      == WeightedRoundRobin.Score(Scores(proxies), id) {
      TouchedKeepsLoads(z, proxies, offer, requested, |offer.proxies|, id);
    }
    SumDependsOnScores(ids, |ids|, Scores(touched), Scores(proxies));
    if candidates != [] {
      CandidateCapacity(z, proxies, offer, requested);
      forall i | 0 <= i < |candidates| ensures candidates[i].id in ids {
        CandidateIsUsable(z, proxies, offer, requested, candidates[i]);
      }
      WeightedRoundRobin.SelectionConservesSum(ids, Scores(touched), candidates);
      ProbeKeepsScores(z, touched, candidates, offer, requested, ids);
    }
  }

  lemma ProbeKeepsScores(z: Settings, touched: ProxyStates, candidates: seq<ProxyMetadata>, offer: Offer,
                         requested: Option<ProxyId>, ids: seq<ProxyId>)
    requires candidates != [] && forall i :: 0 <= i < |candidates| ==> Capacity(z, candidates[i]) >= 1
    ensures var (chosen, proxy) := Choose(z, touched, candidates, requested);
            var moved := requested.None? && z.cfg.selectionPolicy != LeastLoaded;
            var expected := if moved then WeightedRoundRobin.After(Scores(touched), candidates) else Scores(touched);
            WeightedRoundRobin.SumScores(ids, Scores(Probe(z, chosen, proxy, offer).proxies))
              == WeightedRoundRobin.SumScores(ids, expected)
  {
    var (chosen, proxy) := Choose(z, touched, candidates, requested);
    var after := Probe(z, chosen, proxy, offer).proxies;
    var expected := if requested.None? && z.cfg.selectionPolicy != LeastLoaded
                    then WeightedRoundRobin.After(Scores(touched), candidates) else Scores(touched);
    forall id: ProxyId ensures WeightedRoundRobin.Score(Scores(after), id) == WeightedRoundRobin.Score(expected, id) {
      if requested.None? && z.cfg.selectionPolicy != LeastLoaded {
        RaiseKeepsKeys(Scores(touched), candidates, |candidates|);
        WithScoresKeepsLoads(touched, expected, id);
      }
    }
    SumDependsOnScores(ids, |ids|, Scores(after), expected);
  }

  lemma NextScores(z: Settings, pool: Pool, m: Move, ids: seq<ProxyId>)
    requires ValidSettings(z) && WeightedRoundRobin.Distinct(ids)
    requires m.TryReserve? ==> forall i :: 0 <= i < |m.offer.proxies| ==> m.offer.proxies[i].id in ids
    ensures WeightedRoundRobin.SumScores(ids, Scores(Next(z, pool, m).proxies))
         == WeightedRoundRobin.SumScores(ids, Scores(pool.proxies))
  {
    var after := Next(z, pool, m);
    if m.TryReserve? && z.cfg.connectionMode != Direct && after != pool {
      var s := SelectFrom(z, pool.proxies, m.offer, Requested(m.job));
      SelectFromScores(z, pool.proxies, m.offer, Requested(m.job), ids);
      hide SelectFrom, ValidSettings;
      SumDependsOnScores(ids, |ids|, Scores(after.proxies), Scores(s.proxies));
    } else {
      hide SelectFrom, ValidSettings;
      SumDependsOnScores(ids, |ids|, Scores(after.proxies), Scores(pool.proxies));
    }
  }

  /** Over every run of reservations and releases, however the candidate sets change, the round-robin
      scores of all proxies sum to zero. */
  lemma {:induction false} RunScoresSumToZero(z: Settings, moves: seq<Move>, n: nat, ids: seq<ProxyId>)
    requires ValidSettings(z) && WeightedRoundRobin.Distinct(ids) && n <= |moves|
    requires forall k, i :: 0 <= k < |moves| && moves[k].TryReserve? && 0 <= i < |moves[k].offer.proxies| ==>
      moves[k].offer.proxies[i].id in ids
    ensures WeightedRoundRobin.SumScores(ids, Scores(After(z, moves, n).proxies)) == 0
  {
    if n == 0 {
      WeightedRoundRobin.SumZero(ids, |ids|, Scores(EMPTY.proxies));
    } else {
      RunScoresSumToZero(z, moves, n - 1, ids);
      NextScores(z, After(z, moves, n - 1), moves[n - 1], ids);
    }
  }
}
