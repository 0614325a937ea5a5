/** Smooth weighted round-robin selection (packages/archive-core/src/scheduler.ts:617-633) and its
    fairness. A score map stands for the `smoothWeight` fields; an absent proxy has score zero. */
module WeightedRoundRobin {
  import opened Proxies

  type Scores = map<ProxyId, int>

  function Score(scores: Scores, id: ProxyId): int {
    if id in scores then scores[id] else 0
  }

  /** The weight of the first `n` candidates together. */
  function WeightUpTo(candidates: seq<ProxyMetadata>, n: nat): int
    requires n <= |candidates|
  {
    if n == 0 then 0 else WeightUpTo(candidates, n - 1) + candidates[n - 1].weight
  }

  function TotalWeight(candidates: seq<ProxyMetadata>): int {
    WeightUpTo(candidates, |candidates|)
  }

  /** The scores after the first `n` candidates gained their weight. */
  function RaiseUpTo(scores: Scores, candidates: seq<ProxyMetadata>, n: nat): Scores
    requires n <= |candidates|
  {
    if n == 0 then scores
    else
      var before := RaiseUpTo(scores, candidates, n - 1);
      var id := candidates[n - 1].id;
      before[id := Score(before, id) + candidates[n - 1].weight]
  }

  function Raise(scores: Scores, candidates: seq<ProxyMetadata>): Scores {
    RaiseUpTo(scores, candidates, |candidates|)
  }

  /** Candidate `a` is preferred to candidate `b`: a higher score, or the same score and an earlier id. */
  predicate Preferred(scores: Scores, a: ProxyId, b: ProxyId) {
    Score(scores, a) > Score(scores, b) || (Score(scores, a) == Score(scores, b) && a < b)
  }

  /** The position of the preferred one of the first `n` candidates under the given scores. */
  function Winner(scores: Scores, candidates: seq<ProxyMetadata>, n: nat): (w: nat)
    requires 1 <= n <= |candidates|
    ensures w < n
  {
    if n == 1 then 0
    else
      var w := Winner(scores, candidates, n - 1);
      if Preferred(scores, candidates[n - 1].id, candidates[w].id) then n - 1 else w
  }

  lemma {:induction false} WinnerIsPreferred(scores: Scores, candidates: seq<ProxyMetadata>, n: nat, j: nat)
    requires j < n <= |candidates|
    ensures !Preferred(scores, candidates[j].id, candidates[Winner(scores, candidates, n)].id)
  {
    if n > 1 && j < n - 1 {
      WinnerIsPreferred(scores, candidates, n - 1, j);
    }
  }

  /** Raising a later candidate does not change who leads the earlier ones. */
  lemma {:induction false} WinnerBeforeRaise(scores: Scores, candidates: seq<ProxyMetadata>, n: nat, id: ProxyId,
                                             value: int)
    requires 1 <= n <= |candidates| && forall i :: 0 <= i < n ==> candidates[i].id != id
    ensures Winner(scores[id := value], candidates, n) == Winner(scores, candidates, n)
  {
    if n > 1 {
      WinnerBeforeRaise(scores, candidates, n - 1, id, value);
    }
  }

  /** One pass of the selection loop: the next candidate, raised, against the leader so far. */
  lemma NextLeader(scores: Scores, candidates: seq<ProxyMetadata>, n: nat, value: int)
    requires 1 <= n < |candidates| && DistinctIds(candidates)
    ensures var raised := scores[candidates[n].id := value];
            var w := Winner(scores, candidates, n);
            var leads := value > Score(scores, candidates[w].id)
                      || (value == Score(scores, candidates[w].id) && candidates[n].id < candidates[w].id);
            && Winner(raised, candidates, n + 1) == (if leads then n else w)
            && Score(raised, candidates[w].id) == Score(scores, candidates[w].id)
  {
    WinnerBeforeRaise(scores, candidates, n, candidates[n].id, value);
  }

  function Selected(scores: Scores, candidates: seq<ProxyMetadata>): ProxyMetadata
    requires candidates != []
  {
    candidates[Winner(Raise(scores, candidates), candidates, |candidates|)]
  }

  function After(scores: Scores, candidates: seq<ProxyMetadata>): Scores
    requires candidates != []
  {
    var raised := Raise(scores, candidates);
    var id := Selected(scores, candidates).id;
    raised[id := Score(raised, id) - TotalWeight(candidates)]
  }

  function WeightOf(candidates: seq<ProxyMetadata>, n: nat, id: ProxyId): int
    requires n <= |candidates|
  {
    if n == 0 then 0
    else WeightOf(candidates, n - 1, id) + (if candidates[n - 1].id == id then candidates[n - 1].weight else 0)
  }

  lemma {:induction false} RaiseAddsWeight(scores: Scores, candidates: seq<ProxyMetadata>, n: nat, id: ProxyId)
    requires n <= |candidates|
    ensures Score(RaiseUpTo(scores, candidates, n), id) == Score(scores, id) + WeightOf(candidates, n, id)
  {
    if n > 0 {
      RaiseAddsWeight(scores, candidates, n - 1, id);
    }
  }

  lemma {:induction false} WeightOfMember(candidates: seq<ProxyMetadata>, n: nat, i: nat)
    requires DistinctIds(candidates) && i < n <= |candidates|
    ensures WeightOf(candidates, n, candidates[i].id) == candidates[i].weight
  {
    if i == n - 1 {
      WeightOfAbsent(candidates, n - 1, candidates[i].id);
    } else {
      WeightOfMember(candidates, n - 1, i);
    }
  }

  lemma {:induction false} WeightOfAbsent(candidates: seq<ProxyMetadata>, n: nat, id: ProxyId)
    requires n <= |candidates|
    requires forall i :: 0 <= i < n ==> candidates[i].id != id
    ensures WeightOf(candidates, n, id) == 0
  {
    if n > 0 {
      WeightOfAbsent(candidates, n - 1, id);
    }
  }

  // ----- Conservation: scores sum to zero whatever the candidate sets are -----

  predicate Distinct(ids: seq<ProxyId>) {
    forall i, j :: 0 <= i < j < |ids| ==> ids[i] != ids[j]
  }

  function SumUpTo(ids: seq<ProxyId>, n: nat, scores: Scores): int
    requires n <= |ids|
  {
    if n == 0 then 0 else SumUpTo(ids, n - 1, scores) + Score(scores, ids[n - 1])
  }

  function SumScores(ids: seq<ProxyId>, scores: Scores): int {
    SumUpTo(ids, |ids|, scores)
  }

  lemma {:induction false} SumUpdateElsewhere(ids: seq<ProxyId>, n: nat, scores: Scores, id: ProxyId, value: int)
    requires n <= |ids|
    requires forall i :: 0 <= i < n ==> ids[i] != id
    ensures SumUpTo(ids, n, scores[id := value]) == SumUpTo(ids, n, scores)
  {
    if n > 0 {
      SumUpdateElsewhere(ids, n - 1, scores, id, value);
    }
  }

  lemma {:induction false} SumUpdate(ids: seq<ProxyId>, n: nat, scores: Scores, k: nat, value: int)
    requires Distinct(ids) && k < n <= |ids|
    ensures SumUpTo(ids, n, scores[ids[k] := value]) == SumUpTo(ids, n, scores) + value - Score(scores, ids[k])
  {
    if k == n - 1 {
      SumUpdateElsewhere(ids, n - 1, scores, ids[k], value);
    } else {
      SumUpdate(ids, n - 1, scores, k, value);
    }
  }

  lemma {:induction false} SumRaise(ids: seq<ProxyId>, scores: Scores, candidates: seq<ProxyMetadata>, n: nat)
    requires Distinct(ids) && n <= |candidates|
    requires forall i :: 0 <= i < |candidates| ==> candidates[i].id in ids
    ensures SumScores(ids, RaiseUpTo(scores, candidates, n)) == SumScores(ids, scores) + WeightUpTo(candidates, n)
  {
    if n > 0 {
      var before := RaiseUpTo(scores, candidates, n - 1);
      SumRaise(ids, scores, candidates, n - 1);
      var k :| 0 <= k < |ids| && ids[k] == candidates[n - 1].id;
      SumUpdate(ids, |ids|, before, k, Score(before, ids[k]) + candidates[n - 1].weight);
    }
  }

  lemma SelectionConservesSum(ids: seq<ProxyId>, scores: Scores, candidates: seq<ProxyMetadata>)
    requires Distinct(ids) && candidates != []
    requires forall i :: 0 <= i < |candidates| ==> candidates[i].id in ids
    ensures SumScores(ids, After(scores, candidates)) == SumScores(ids, scores)
  {
    var raised := Raise(scores, candidates);
    var id := Selected(scores, candidates).id;
    SumRaise(ids, scores, candidates, |candidates|);
    var k :| 0 <= k < |ids| && ids[k] == id;
    SumUpdate(ids, |ids|, raised, k, Score(raised, id) - TotalWeight(candidates));
  }

  /** The scores after the first `n` calls of a history, each call with its own candidate list. */
  function AfterHistory(history: seq<seq<ProxyMetadata>>, n: nat): Scores
    requires n <= |history|
  {
    if n == 0 then map[]
    else
      var before := AfterHistory(history, n - 1);
      if history[n - 1] == [] then before else After(before, history[n - 1])
  }

  lemma {:induction false} SumZero(ids: seq<ProxyId>, n: nat, zero: Scores)
    requires n <= |ids| && zero == map[]
    ensures SumUpTo(ids, n, zero) == 0
  {
    if n > 0 {
      SumZero(ids, n - 1, zero);
    }
  }

  /** Whatever candidates each call offers, the scores of all proxies always sum to zero. */
  lemma {:induction false} ScoresAlwaysSumToZero(ids: seq<ProxyId>, history: seq<seq<ProxyMetadata>>, n: nat)
    requires Distinct(ids) && n <= |history|
    requires forall h, i :: 0 <= h < |history| && 0 <= i < |history[h]| ==> history[h][i].id in ids
    ensures SumScores(ids, AfterHistory(history, n)) == 0
  {
    if n == 0 {
      SumZero(ids, |ids|, map[]);
    } else {
      ScoresAlwaysSumToZero(ids, history, n - 1);
      if history[n - 1] != [] {
        SelectionConservesSum(ids, AfterHistory(history, n - 1), history[n - 1]);
      }
    }
  }

  // ----- A fixed candidate list: drift bound and exact fairness -----

  /** The scores after `k` calls with the same candidates. */
  function Run(candidates: seq<ProxyMetadata>, k: nat): Scores
    requires candidates != []
  {
    if k == 0 then map[] else After(Run(candidates, k - 1), candidates)
  }

  /** The proxy that call number `k` selects. */
  function Pick(candidates: seq<ProxyMetadata>, k: nat): ProxyId
    requires candidates != []
  {
    Selected(Run(candidates, k), candidates).id
  }

  /** How often `who` names `id` among its first `k` values. */
  function Count(who: nat -> ProxyId, k: nat, id: ProxyId): nat {
    if k == 0 then 0 else Count(who, k - 1, id) + (if who(k - 1) == id then 1 else 0)
  }

  function Picker(candidates: seq<ProxyMetadata>): nat -> ProxyId
    requires candidates != []
  {
    (k: nat) => Pick(candidates, k)
  }

  /** How often `id` is selected in the first `k` calls. */
  function Picks(candidates: seq<ProxyMetadata>, k: nat, id: ProxyId): nat
    requires candidates != []
  {
    Count(Picker(candidates), k, id)
  }

  function Ids(candidates: seq<ProxyMetadata>): (ids: seq<ProxyId>)
    ensures |ids| == |candidates|
    ensures forall i :: 0 <= i < |ids| ==> ids[i] == candidates[i].id
  {
    seq(|candidates|, i requires 0 <= i < |candidates| => candidates[i].id)
  }

  lemma {:induction false} WeightPositive(candidates: seq<ProxyMetadata>, n: nat)
    requires Weighted(candidates) && n <= |candidates|
    ensures WeightUpTo(candidates, n) >= n
  {
    if n > 0 {
      WeightPositive(candidates, n - 1);
    }
  }

  /** One call moves a score by the proxy's weight, less the total weight when it is the one selected. */
  lemma CallEffect(scores: Scores, candidates: seq<ProxyMetadata>, id: ProxyId)
    requires candidates != []
    ensures Score(After(scores, candidates), id)
         == Score(scores, id) + WeightOf(candidates, |candidates|, id)
          - (if Selected(scores, candidates).id == id then TotalWeight(candidates) else 0)
  {
    RaiseAddsWeight(scores, candidates, |candidates|, id);
  }

  lemma ScoreStep(candidates: seq<ProxyMetadata>, k: nat, id: ProxyId)
    requires candidates != []
    ensures Score(Run(candidates, k + 1), id)
         == Score(Run(candidates, k), id) + WeightOf(candidates, |candidates|, id)
          - (if Pick(candidates, k) == id then TotalWeight(candidates) else 0)
  {
    CallEffect(Run(candidates, k), candidates, id);
  }

  lemma DriftStep(score: int, k: int, weight: int, total: int, picks: int, picked: bool)
    requires score == k * weight - total * picks
    ensures score + weight - (if picked then total else 0)
         == (k + 1) * weight - total * (picks + (if picked then 1 else 0))
  {
    Distribute(weight, k);
    Distribute(total, picks);
  }

  /** What `id` is owed after `k` calls: `k` times its weight, less the total weight per selection. */
  function Drift(candidates: seq<ProxyMetadata>, k: nat, id: ProxyId): int
    requires candidates != []
  {
    k * WeightOf(candidates, |candidates|, id) - TotalWeight(candidates) * Picks(candidates, k, id)
  }

  lemma DriftAfterCall(candidates: seq<ProxyMetadata>, k: nat, id: ProxyId)
    requires candidates != [] && Score(Run(candidates, k), id) == Drift(candidates, k, id)
    ensures Score(Run(candidates, k + 1), id) == Drift(candidates, k + 1, id)
  {
    ScoreStep(candidates, k, id);
    PicksStep(candidates, k, id);
    DriftStep(Score(Run(candidates, k), id), k, WeightOf(candidates, |candidates|, id),
              TotalWeight(candidates), Picks(candidates, k, id), Pick(candidates, k) == id);
  }

  /** A score is what the proxy was owed minus what it was given. */
  lemma {:induction false} ScoreIsDrift(candidates: seq<ProxyMetadata>, k: nat, id: ProxyId)
    requires candidates != []
    ensures Score(Run(candidates, k), id) == Drift(candidates, k, id)
  {
    if k > 0 {
      ScoreIsDrift(candidates, k - 1, id);
      DriftAfterCall(candidates, k - 1, id);
    }
  }

  lemma Distribute(w: int, p: int)
    ensures w * (p + 1) == w * p + w && (p + 1) * w == p * w + w
  {
  }

  lemma PositiveProduct(n: nat, t: int)
    requires n * t > 0
    ensures t > 0
  {
  }

  lemma NonNegativeProduct(w: nat, n: nat)
    ensures w * n >= 0
  {
  }

  lemma {:induction false} SumAtMost(ids: seq<ProxyId>, n: nat, scores: Scores, bound: int)
    requires n <= |ids|
    requires forall i :: 0 <= i < n ==> Score(scores, ids[i]) <= bound
    ensures SumUpTo(ids, n, scores) <= n * bound
  {
    if n > 0 {
      SumAtMost(ids, n - 1, scores, bound);
      Distribute(bound, n - 1);
    }
  }

  lemma {:induction false} SumAtLeast(ids: seq<ProxyId>, n: nat, scores: Scores, low: int)
    requires n <= |ids|
    requires forall i :: 0 <= i < n ==> Score(scores, ids[i]) >= low
    ensures SumUpTo(ids, n, scores) >= n * low
  {
    if n > 0 {
      SumAtLeast(ids, n - 1, scores, low);
      Distribute(low, n - 1);
    }
  }

  lemma {:induction false} SumWithout(ids: seq<ProxyId>, n: nat, scores: Scores, k: nat, low: int)
    requires k < n <= |ids|
    requires forall i :: 0 <= i < n ==> Score(scores, ids[i]) >= low
    ensures SumUpTo(ids, n, scores) >= Score(scores, ids[k]) + (n - 1) * low
  {
    if k == n - 1 {
      SumAtLeast(ids, n - 1, scores, low);
    } else {
      SumWithout(ids, n - 1, scores, k, low);
      Distribute(low, n - 2);
    }
  }

  lemma {:induction false} RunSumsToZero(candidates: seq<ProxyMetadata>, k: nat)
    requires candidates != [] && DistinctIds(candidates)
    ensures SumScores(Ids(candidates), Run(candidates, k)) == 0
  {
    var ids := Ids(candidates);
    if k == 0 {
      SumZero(ids, |ids|, Run(candidates, k));
    } else {
      RunSumsToZero(candidates, k - 1);
      forall i | 0 <= i < |candidates| ensures candidates[i].id in ids {
        assert ids[i] == candidates[i].id;
      }
      SelectionConservesSum(ids, Run(candidates, k - 1), candidates);
    }
  }

  /** Scores that sum to zero raise to a strictly positive maximum, so the winner is owed something. */
  lemma WinnerIsOwed(scores: Scores, candidates: seq<ProxyMetadata>)
    requires candidates != [] && DistinctIds(candidates) && Weighted(candidates)
    requires SumScores(Ids(candidates), scores) == 0
    ensures Score(Raise(scores, candidates), Selected(scores, candidates).id) > 0
  {
    var raised := Raise(scores, candidates);
    var ids := Ids(candidates);
    var top := Score(raised, Selected(scores, candidates).id);
    forall i | 0 <= i < |candidates| ensures candidates[i].id in ids && Score(raised, ids[i]) <= top {
      assert ids[i] == candidates[i].id;
      WinnerIsPreferred(raised, candidates, |candidates|, i);
    }
    SumRaise(ids, scores, candidates, |candidates|);
    WeightPositive(candidates, |candidates|);
    SumAtMost(ids, |ids|, raised, top);
    PositiveProduct(|ids|, top);
  }

  lemma {:induction false} NeverFarBehind(candidates: seq<ProxyMetadata>, k: nat, i: nat)
    requires DistinctIds(candidates) && Weighted(candidates) && i < |candidates|
    ensures Score(Run(candidates, k), candidates[i].id) > -TotalWeight(candidates)
  {
    WeightPositive(candidates, |candidates|);
    if k > 0 {
      NeverFarBehind(candidates, k - 1, i);
      RunSumsToZero(candidates, k - 1);
      CallNeverFarBehind(Run(candidates, k - 1), candidates, i);
    }
  }

  lemma CallNeverFarBehind(scores: Scores, candidates: seq<ProxyMetadata>, i: nat)
    requires DistinctIds(candidates) && Weighted(candidates) && i < |candidates|
    requires SumScores(Ids(candidates), scores) == 0
    requires Score(scores, candidates[i].id) > -TotalWeight(candidates)
    ensures Score(After(scores, candidates), candidates[i].id) > -TotalWeight(candidates)
  {
    WinnerIsOwed(scores, candidates);
    RaiseAddsWeight(scores, candidates, |candidates|, candidates[i].id);
    WeightOfMember(candidates, |candidates|, i);
  }

  /** After k selections over n fixed candidates of total weight W, `k*weight - W*picks` lies strictly
      above -W and at most (n-1)*(W-1), for each proxy. */
  lemma DriftBound(candidates: seq<ProxyMetadata>, k: nat, i: nat)
    requires DistinctIds(candidates) && Weighted(candidates) && i < |candidates|
    ensures var w := TotalWeight(candidates);
            var drift := k * candidates[i].weight - w * Picks(candidates, k, candidates[i].id);
            -w < drift <= (|candidates| - 1) * (w - 1)
  {
    var w := TotalWeight(candidates);
    var scores := Run(candidates, k);
    var ids := Ids(candidates);
    ScoreIsDrift(candidates, k, candidates[i].id);
    WeightOfMember(candidates, |candidates|, i);
    forall j | 0 <= j < |ids| ensures Score(scores, ids[j]) >= 1 - w {
      NeverFarBehind(candidates, k, j);
    }
    SumWithout(ids, |ids|, scores, i, 1 - w);
    RunSumsToZero(candidates, k);
    assert (|ids| - 1) * (1 - w) == -((|ids| - 1) * (w - 1));
  }

  /** The selections of the first `n` candidates together, in the first `k` calls. */
  function SumPicks(candidates: seq<ProxyMetadata>, n: nat, k: nat): int
    requires candidates != [] && n <= |candidates|
  {
    if n == 0 then 0 else SumPicks(candidates, n - 1, k) + Picks(candidates, k, candidates[n - 1].id)
  }

  lemma {:induction false} SumPicksStep(candidates: seq<ProxyMetadata>, n: nat, k: nat, w: nat)
    requires candidates != [] && n <= |candidates| && DistinctIds(candidates)
    requires w < |candidates| && Pick(candidates, k) == candidates[w].id
    ensures SumPicks(candidates, n, k + 1) == SumPicks(candidates, n, k) + (if w < n then 1 else 0)
  {
    if n > 0 {
      SumPicksStep(candidates, n - 1, k, w);
      PicksStep(candidates, k, candidates[n - 1].id);
    }
  }

  lemma PicksStep(candidates: seq<ProxyMetadata>, k: nat, id: ProxyId)
    requires candidates != []
    ensures Picks(candidates, k + 1, id) == Picks(candidates, k, id) + (if Pick(candidates, k) == id then 1 else 0)
  {
  }

  lemma PickPosition(candidates: seq<ProxyMetadata>, k: nat) returns (w: nat)
    requires candidates != []
    ensures w < |candidates| && Pick(candidates, k) == candidates[w].id
  {
    w := Winner(Raise(Run(candidates, k), candidates), candidates, |candidates|);
  }

  lemma {:induction false} EveryCallPicks(candidates: seq<ProxyMetadata>, k: nat)
    requires candidates != [] && DistinctIds(candidates)
    ensures SumPicks(candidates, |candidates|, k) == k
  {
    if k == 0 {
      NoPicksYet(candidates, |candidates|);
    } else {
      EveryCallPicks(candidates, k - 1);
      var w := PickPosition(candidates, k - 1);
      SumPicksStep(candidates, |candidates|, k - 1, w);
    }
  }

  lemma {:induction false} NoPicksYet(candidates: seq<ProxyMetadata>, n: nat)
    requires candidates != [] && n <= |candidates|
    ensures SumPicks(candidates, n, 0) == 0
  {
    if n > 0 {
      NoPicksYet(candidates, n - 1);
    }
  }

  lemma DriftAtPeriod(w: int, weight: int, picks: int)
    requires w > 0 && -w < w * weight - w * picks
    ensures picks <= weight
  {
    var excess := picks - weight;
    assert w * excess == w * picks - w * weight;
    if excess >= 1 {
      Distribute(w, excess - 1);
      NonNegativeProduct(w, excess - 1);
    }
  }

  /** No candidate was selected more often than its weight in the first `k` calls. */
  predicate WithinWeights(candidates: seq<ProxyMetadata>, k: nat) {
    forall j :: 0 <= j < |candidates| ==> Picks(candidates, k, candidates[j].id) <= candidates[j].weight
  }

  lemma {:induction false} PicksBelowWeights(candidates: seq<ProxyMetadata>, n: nat, k: nat)
    requires candidates != [] && n <= |candidates| && WithinWeights(candidates, k)
    ensures SumPicks(candidates, n, k) <= WeightUpTo(candidates, n)
  {
    if n > 0 {
      PicksBelowWeights(candidates, n - 1, k);
    }
  }

  /** Picks that are each at most the weight, with the same total, are each equal to the weight. */
  lemma {:induction false} SqueezePicks(candidates: seq<ProxyMetadata>, n: nat, k: nat, i: nat)
    requires candidates != [] && i < n <= |candidates| && WithinWeights(candidates, k)
    requires SumPicks(candidates, n, k) >= WeightUpTo(candidates, n)
    ensures Picks(candidates, k, candidates[i].id) == candidates[i].weight
  {
    PicksBelowWeights(candidates, n - 1, k);
    if i < n - 1 {
      SqueezePicks(candidates, n - 1, k, i);
    }
  }

  lemma PeriodWithinWeights(candidates: seq<ProxyMetadata>, w: nat)
    requires candidates != [] && DistinctIds(candidates) && Weighted(candidates) && w == TotalWeight(candidates)
    ensures WithinWeights(candidates, w)
  {
    WeightPositive(candidates, |candidates|);
    forall j | 0 <= j < |candidates| ensures Picks(candidates, w, candidates[j].id) <= candidates[j].weight {
      DriftBound(candidates, w, j);
      DriftAtPeriod(w, candidates[j].weight, Picks(candidates, w, candidates[j].id));
    }
  }

  /** Starting from zero scores, W consecutive selections pick each proxy exactly `weight` times, and
      every score is zero again. */
  lemma ExactFairness(candidates: seq<ProxyMetadata>, w: nat, i: nat)
    requires DistinctIds(candidates) && Weighted(candidates) && w == TotalWeight(candidates) && i < |candidates|
    ensures Picks(candidates, w, candidates[i].id) == candidates[i].weight
    ensures Score(Run(candidates, w), candidates[i].id) == 0
  {
    PeriodWithinWeights(candidates, w);
    EveryCallPicks(candidates, w);
    SqueezePicks(candidates, |candidates|, w, i);
    ScoreIsDrift(candidates, w, candidates[i].id);
    WeightOfMember(candidates, |candidates|, i);
  }

  // ----- Periodicity: every window of W calls is exactly fair -----

  ghost predicate SameScores(a: Scores, b: Scores) {
    forall id: ProxyId :: Score(a, id) == Score(b, id)
  }

  lemma {:induction false} WinnerRespectsScores(a: Scores, b: Scores, candidates: seq<ProxyMetadata>, n: nat)
    requires SameScores(a, b) && 1 <= n <= |candidates|
    ensures Winner(a, candidates, n) == Winner(b, candidates, n)
  {
    if n > 1 {
      WinnerRespectsScores(a, b, candidates, n - 1);
    }
  }

  lemma CallRespectsScores(a: Scores, b: Scores, candidates: seq<ProxyMetadata>)
    requires SameScores(a, b) && candidates != []
    ensures Selected(a, candidates) == Selected(b, candidates)
    ensures SameScores(After(a, candidates), After(b, candidates))
  {
    forall id: ProxyId ensures Score(Raise(a, candidates), id) == Score(Raise(b, candidates), id) {
      RaiseAddsWeight(a, candidates, |candidates|, id);
      RaiseAddsWeight(b, candidates, |candidates|, id);
    }
    WinnerRespectsScores(Raise(a, candidates), Raise(b, candidates), candidates, |candidates|);
    forall id: ProxyId ensures Score(After(a, candidates), id) == Score(After(b, candidates), id) {
      CallEffect(a, candidates, id);
      CallEffect(b, candidates, id);
    }
  }

  lemma {:induction false} NeverPicked(candidates: seq<ProxyMetadata>, k: nat, id: ProxyId)
    requires candidates != []
    requires forall i :: 0 <= i < |candidates| ==> candidates[i].id != id
    ensures Picks(candidates, k, id) == 0
  {
    if k > 0 {
      NeverPicked(candidates, k - 1, id);
    }
  }

  lemma PeriodRestoresScores(candidates: seq<ProxyMetadata>, w: nat)
    requires candidates != [] && DistinctIds(candidates) && Weighted(candidates) && w == TotalWeight(candidates)
    ensures SameScores(Run(candidates, w), Run(candidates, 0))
  {
    forall id: ProxyId ensures Score(Run(candidates, w), id) == 0 {
      if i :| 0 <= i < |candidates| && candidates[i].id == id {
        ExactFairness(candidates, w, i);
      } else {
        ScoreIsDrift(candidates, w, id);
        WeightOfAbsent(candidates, |candidates|, id);
        NeverPicked(candidates, w, id);
      }
    }
  }

  lemma {:induction false} RunIsPeriodic(candidates: seq<ProxyMetadata>, w: nat, k: nat)
    requires candidates != [] && DistinctIds(candidates) && Weighted(candidates) && w == TotalWeight(candidates)
    ensures SameScores(Run(candidates, w + k), Run(candidates, k))
    ensures Pick(candidates, w + k) == Pick(candidates, k)
  {
    if k == 0 {
      PeriodRestoresScores(candidates, w);
    } else {
      RunIsPeriodic(candidates, w, k - 1);
      CallRespectsScores(Run(candidates, w + (k - 1)), Run(candidates, k - 1), candidates);
      assert Run(candidates, w + k) == After(Run(candidates, w + (k - 1)), candidates);
    }
    CallRespectsScores(Run(candidates, w + k), Run(candidates, k), candidates);
  }

  lemma PickerIsPeriodic(candidates: seq<ProxyMetadata>, w: nat)
    requires candidates != [] && DistinctIds(candidates) && Weighted(candidates) && w == TotalWeight(candidates)
    ensures forall j: nat :: Picker(candidates)(w + j) == Picker(candidates)(j)
  {
    forall j: nat ensures Picker(candidates)(w + j) == Picker(candidates)(j) {
      RunIsPeriodic(candidates, w, j);
    }
  }

  lemma {:induction false} CountPeriodic(who: nat -> ProxyId, w: nat, k: nat, id: ProxyId)
    requires forall j: nat :: who(w + j) == who(j)
    ensures Count(who, w + k, id) == Count(who, w, id) + Count(who, k, id)
  {
    if k > 0 {
      CountPeriodic(who, w, k - 1, id);
      assert who(w + (k - 1)) == who(k - 1);
    }
  }

  /** Any W consecutive selections, wherever the window starts, pick each proxy exactly `weight` times. */
  lemma EveryWindowIsFair(candidates: seq<ProxyMetadata>, w: nat, start: nat, i: nat)
    requires DistinctIds(candidates) && Weighted(candidates) && w == TotalWeight(candidates) && i < |candidates|
    ensures Picks(candidates, w + start, candidates[i].id)
         == Picks(candidates, start, candidates[i].id) + candidates[i].weight
  {
    PickerIsPeriodic(candidates, w);
    CountPeriodic(Picker(candidates), w, start, candidates[i].id);
    ExactFairness(candidates, w, i);
  }
}
