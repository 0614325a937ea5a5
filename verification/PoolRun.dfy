/** The run loop of the worker pool (packages/archive-core/src/scheduler.ts:743-826). Every stretch without
    an await is executed as it stands; at an await the environment settles tasks, reserves and releases
    on the same scheduler, uses the network budget and moves the clock as it likes. */
module PoolRun {
  import opened Options
  import opened Proxies
  import opened PoolConfiguration
  import opened CircuitBreaker
  import opened WorkerPool
  import opened PoolInvariants
  import opened PoolGrants
  import OriginBudget

  /** A started job: settled once its outcome is recorded and its reservation released, and kept in
      `active` until its promise reaction removes it. */
  datatype Task = Task(reservation: Reservation, settled: bool)

  datatype Reason =
    | Done
    | Failed
    | ClaimConflict
    | Cancelled
    | SchedulerError(error: Error)
    | CapacityExhausted
    | NoEligibleProxy

  datatype Entry = Entry(job: Job, reason: Reason)

  datatype Ending = Succeeds | Skips | Fails(proxyFault: bool, cancels: bool)

  function OutcomeOf(ending: Ending): Outcome {
    match ending
    case Succeeds => Completed
    case Skips => OtherwiseFailed
    case Fails(proxyFault, _) => if proxyFault then ProxyFailed else OtherwiseFailed
  }

  function JobsOf(entries: seq<Entry>): multiset<Job> {
    if entries == [] then multiset{}
    else JobsOf(entries[..|entries| - 1]) + multiset{entries[|entries| - 1].job}
  }

  lemma JobsOfAppend(entries: seq<Entry>, e: Entry)
    ensures JobsOf(entries + [e]) == JobsOf(entries) + multiset{e.job}
  {
    assert (entries + [e])[..|entries|] == entries;
  }

  /** The jobs of the tasks that are not settled. */
  function RunningJobs(active: seq<Task>): multiset<Job> {
    if active == [] then multiset{}
    else
      var last := active[|active| - 1];
      RunningJobs(active[..|active| - 1]) + (if last.settled then multiset{} else multiset{last.reservation.job})
  }

  lemma {:induction false} RunningSplit(a: seq<Task>, b: seq<Task>)
    ensures RunningJobs(a + b) == RunningJobs(a) + RunningJobs(b)
  {
    hide RunningJobs;
    if b == [] {
      assert a + b == a;
      NothingRuns();
    } else {
      var n := |b| - 1;
      RunningSplit(a, b[..n]);
      assert (a + b)[..|a + b| - 1] == a + b[..n];
      RunningLast(a + b);
      RunningLast(b);
    }
  }

  lemma NothingRuns()
    ensures RunningJobs([]) == multiset{}
  {
  }

  lemma RunningLast(active: seq<Task>)
    requires active != []
    ensures var last := active[|active| - 1];
            RunningJobs(active) == RunningJobs(active[..|active| - 1]) + (if last.settled then multiset{}
                                                                          else multiset{last.reservation.job})
  {
  }

  lemma RunningOne(t: Task)
    ensures RunningJobs([t]) == (if t.settled then multiset{} else multiset{t.reservation.job})
  {
    assert [t][..0] == [];
  }

  lemma RunningSettle(active: seq<Task>, i: nat)
    requires i < |active| && !active[i].settled
    ensures RunningJobs(active)
         == RunningJobs(active[i := active[i].(settled := true)]) + multiset{active[i].reservation.job}
  {
    var t := active[i];
    assert active == active[..i] + [t] + active[i + 1..];
    assert active[i := t.(settled := true)] == active[..i] + [t.(settled := true)] + active[i + 1..];
    RunningSplit(active[..i] + [t], active[i + 1..]);
    RunningSplit(active[..i], [t]);
    RunningSplit(active[..i] + [t.(settled := true)], active[i + 1..]);
    RunningSplit(active[..i], [t.(settled := true)]);
    RunningOne(t);
    RunningOne(t.(settled := true));
  }

  lemma RunningRemove(active: seq<Task>, i: nat)
    requires i < |active| && active[i].settled
    ensures RunningJobs(active[..i] + active[i + 1..]) == RunningJobs(active)
  {
    assert active == active[..i] + [active[i]] + active[i + 1..];
    RunningSplit(active[..i] + [active[i]], active[i + 1..]);
    RunningSplit(active[..i], [active[i]]);
    RunningSplit(active[..i], active[i + 1..]);
    RunningOne(active[i]);
  }

  lemma PendingRemove(pending: seq<Job>, i: nat)
    requires i < |pending|
    ensures multiset(pending) == multiset(pending[..i] + pending[i + 1..]) + multiset{pending[i]}
  {
    assert pending == pending[..i] + [pending[i]] + pending[i + 1..];
  }

  /** With nothing reserved, direct mode refuses a job only because its origin is paused. */
  lemma DirectRefusalMeansPaused(z: Settings, catalog: Catalog, pool: Pool, paused: bool, workerId: nat, job: Job,
                                 offer: Offer)
    requires Consistent(z, catalog, pool) && pool.workers == map[] && z.cfg.connectionMode == Direct
    requires Reserve(z, pool, paused, workerId, true, job, offer).1 == NoCapacity
    ensures paused
  {
    assert OriginLoad(z, pool, job.origin);
    assert OnOrigin(pool.workers, job.origin) == {};
  }

  /** What a reservation call leaves, by its answer. */
  lemma ReserveAnswers(z: Settings, pool: Pool, paused: bool, workerId: nat, idValid: bool, job: Job, offer: Offer)
    requires ValidSettings(z)
    ensures var (after, answer) := Reserve(z, pool, paused, workerId, idValid, job, offer);
            && (answer == NoCapacity ==> idValid)
            && (answer.Granted? ==>
                  && answer.reservation.workerId == workerId && workerId !in pool.workers
                       && answer.reservation.job == job
                  && after.workers == pool.workers[workerId := answer.reservation])
            && (!answer.Granted? ==> after.workers == pool.workers)
  {
  }

  /** What a budget knows of the cooldown of an origin. */
  function CooldownOf(w: OriginBudget.Budget, origin: string): Option<int> {
    if origin in w.buckets then w.buckets[origin].cooldownUntilMs else None
  }

  /** Two budgets in which the same cooldowns are live, at this reading of the clock and at every later one. */
  ghost predicate SameCooldowns(w: OriginBudget.Budget, v: OriginBudget.Budget, nowMs: int) {
    forall o: string, t: int :: t >= nowMs ==>
      (OriginBudget.InCooldown(CooldownOf(v, o), t) <==> OriginBudget.InCooldown(CooldownOf(w, o), t))
  }

  /** A snapshot takes away a cooldown that has ended, and no other. */
  lemma LookingKeepsCooldowns(cfg: Configuration, w: OriginBudget.Budget, origin: string, nowMs: int)
    ensures SameCooldowns(w, OriginBudget.Step(cfg, w, OriginBudget.Snapshot(origin), nowMs), nowMs)
    ensures origin in OriginBudget.Step(cfg, w, OriginBudget.Snapshot(origin), nowMs).buckets
  {
  }

  lemma AskingKeepsCooldowns(cfg: Configuration, w: OriginBudget.Budget, asked: string, nowMs: int)
    ensures forall o: string ::
      CooldownOf(OriginBudget.Step(cfg, w, OriginBudget.AskPaused(asked), nowMs), o) == CooldownOf(w, o)
  {
  }

  lemma PausedIsCooldown(cfg: Configuration, w: OriginBudget.Budget, origin: string, nowMs: int)
    ensures OriginBudget.Paused(cfg, w, origin, nowMs) <==> OriginBudget.InCooldown(CooldownOf(w, origin), nowMs)
  {
  }

  // ----- Waiting for a cooldown, or giving up -----

  /** The first cooldown that is live at the reading for it. Each cooldown has a reading, in order, and there is one
      more at the end; what stands for a reading that is not made does not matter. */
  predicate FirstLive(cooldowns: seq<Option<int>>, readings: seq<int>, i: nat)
    requires |readings| == |cooldowns| + 1
  {
    && i < |cooldowns| && OriginBudget.InCooldown(cooldowns[i], readings[i])
    && forall j :: 0 <= j < i ==> !OriginBudget.InCooldown(cooldowns[j], readings[j])
  }

  /** The run waits when there is a first live cooldown, and the clock, read once more, has not reached its end. */
  predicate Waits(cooldowns: seq<Option<int>>, readings: seq<int>)
    requires |readings| == |cooldowns| + 1
  {
    exists i: nat :: i < |cooldowns| && FirstLive(cooldowns, readings, i)
      && OriginBudget.InCooldown(cooldowns[i], readings[i + 1])
  }

  function CooldownsOf(w: OriginBudget.Budget, jobs: seq<Job>): (r: seq<Option<int>>)
    ensures |r| == |jobs|
  {
    seq(|jobs|, i requires 0 <= i < |jobs| => CooldownOf(w, jobs[i].origin))
  }

  lemma FirstLiveIsUnique(cooldowns: seq<Option<int>>, readings: seq<int>, i: nat, j: nat)
    requires |readings| == |cooldowns| + 1 && FirstLive(cooldowns, readings, i) && FirstLive(cooldowns, readings, j)
    ensures i == j
  {
  }

  /** For some `k`, the cooldowns before the `k`-th ended between the refusal of their job and their search, and
      the `k`-th, if there is one, ended between its search and the next reading. */
  predicate Expiring(cooldowns: seq<Option<int>>, passes: seq<int>, readings: seq<int>)
    requires |passes| == |cooldowns| && |readings| == |cooldowns| + 1
  {
    exists k: nat :: k <= |cooldowns| && EndedUpTo(cooldowns, passes, readings, k)
  }

  predicate EndedUpTo(cooldowns: seq<Option<int>>, passes: seq<int>, readings: seq<int>, k: nat)
    requires |passes| == |cooldowns| && |readings| == |cooldowns| + 1 && k <= |cooldowns|
  {
    && (forall i :: 0 <= i < k ==> cooldowns[i].Some? && passes[i] < cooldowns[i].value <= readings[i])
    && (k < |cooldowns| ==> cooldowns[k].Some? && readings[k] < cooldowns[k].value <= readings[k + 1])
  }

  lemma ExpiringOrWaiting(cooldowns: seq<Option<int>>, passes: seq<int>, readings: seq<int>)
    requires |passes| == |cooldowns| && |readings| == |cooldowns| + 1
    requires forall i :: 0 <= i < |cooldowns| ==> OriginBudget.InCooldown(cooldowns[i], passes[i])
    ensures Expiring(cooldowns, passes, readings) <==> !Waits(cooldowns, readings)
  {
    var k := Search(cooldowns, readings, |cooldowns|);
    if !Waits(cooldowns, readings) {
      assert EndedUpTo(cooldowns, passes, readings, k);
    }
    forall j: nat | j <= |cooldowns| && EndedUpTo(cooldowns, passes, readings, j) ensures !Waits(cooldowns, readings) {
      if j < |cooldowns| {
        StopsAt(cooldowns, readings, j);
      }
    }
  }

  /** Direct mode, with nothing reserved, refuses all the pending jobs and then gives them all up exactly when
      every cooldown was live as its job was refused, and they end one after another under the readings. */
  lemma GivenUpExactlyWhenExpiring(z: Settings, catalog: Catalog, pool: Pool, w: OriginBudget.Budget, jobs: seq<Job>,
                                   offer: Offer, workerId: nat, passes: seq<int>, readings: seq<int>)
    requires Consistent(z, catalog, pool) && pool.workers == map[] && z.cfg.connectionMode == Direct
    requires forall i :: 0 <= i < |jobs| ==> Requested(jobs[i]).None?
    requires |passes| == |jobs| && |readings| == |jobs| + 1
    ensures var cooldowns := CooldownsOf(w, jobs);
            (&& (forall i :: 0 <= i < |jobs| ==> RefusedAt(z, pool, w, jobs[i], offer, workerId, passes[i]))
             && !Waits(cooldowns, readings))
            <==>
            (&& (forall i :: 0 <= i < |jobs| ==> OriginBudget.InCooldown(cooldowns[i], passes[i]))
             && Expiring(cooldowns, passes, readings))
  {
    var cooldowns := CooldownsOf(w, jobs);
    forall i | 0 <= i < |jobs|
      ensures RefusedAt(z, pool, w, jobs[i], offer, workerId, passes[i])
        <==> OriginBudget.InCooldown(cooldowns[i], passes[i])
    {
      assert OriginLoad(z, pool, jobs[i].origin);
      assert OnOrigin(pool.workers, jobs[i].origin) == {};
    }
    hide RefusedAt, Consistent;
    if forall i :: 0 <= i < |jobs| ==> OriginBudget.InCooldown(cooldowns[i], passes[i]) {
      ExpiringOrWaiting(cooldowns, passes, readings);
    }
  }

  /** One job is refused at this reading of the clock. */
  predicate RefusedAt(z: Settings, pool: Pool, w: OriginBudget.Budget, job: Job, offer: Offer, workerId: nat,
                      passMs: int)
    requires ValidSettings(z)
  {
    Reserve(z, pool, OriginBudget.Paused(z.cfg, w, job.origin, passMs), workerId, true, job, offer).1 == NoCapacity
  }

  /** Where the search stops. */
  lemma {:induction false} Search(cooldowns: seq<Option<int>>, readings: seq<int>, n: nat) returns (k: nat)
    requires |readings| == |cooldowns| + 1 && n <= |cooldowns|
    ensures k <= n && forall j :: 0 <= j < k ==> !OriginBudget.InCooldown(cooldowns[j], readings[j])
    ensures k < n ==> FirstLive(cooldowns, readings, k)
  {
    if n == 0 {
      return 0;
    }
    k := Search(cooldowns, readings, n - 1);
    if k == n - 1 && !OriginBudget.InCooldown(cooldowns[k], readings[k]) {
      k := n;
    }
  }

  /** A job can be given up while its own cooldown is live at every reading: the search settles on the first
      cooldown, which ends before the next reading. */
  lemma GivenUpWithALiveCooldown()
    ensures var cooldowns := [Some(10), Some(1_000_000)];
            !Waits(cooldowns, [9, 10, 10]) && OriginBudget.InCooldown(cooldowns[1], 10)
  {
    assert FirstLive([Some(10), Some(1_000_000)], [9, 10, 10], 0);
  }

  /** A job whose cooldown ended after it was refused is kept if another one still cools. */
  lemma KeptByAnother()
    ensures var cooldowns := [Some(11), Some(1_000_000)];
            OriginBudget.InCooldown(cooldowns[0], 10) && !OriginBudget.InCooldown(cooldowns[0], 11)
            && Waits(cooldowns, [11, 11, 12])
  {
    assert FirstLive([Some(11), Some(1_000_000)], [11, 11, 12], 1);
  }

  /** What a run is given. */
  datatype Context = Context(
    z: Settings,
    jobs: seq<Job>,
    proxies: seq<ProxyMetadata>,
    idLimit: nat,                       // the sequence numbers that make a safe worker identifier with the prefix
    frozen: bool,                       // whether the clock stands still between two awaits
    alone: bool,                        // whether nobody else uses the scheduler
    abortable: bool,                    // whether the signal may abort the run
    catalog: Catalog)

  datatype State = State(
    pending: seq<Job>,
    active: seq<Task>,
    completed: seq<Entry>,
    failed: seq<Entry>,
    skipped: seq<Entry>,
    blocked: seq<Entry>,
    sequence: nat,
    cancelled: bool,
    nowMs: int,
    pool: Pool,
    foreign: map<nat, Reservation>,     // what others have reserved
    budget: OriginBudget.Budget)

  /** Every job is in exactly one place. */
  predicate Partitioned(c: Context, s: State) {
    multiset(s.pending) + RunningJobs(s.active)
      + JobsOf(s.completed) + JobsOf(s.failed) + JobsOf(s.skipped) + JobsOf(s.blocked)
      == multiset(c.jobs)
  }

  predicate Unsettled(s: State, i: int) {
    0 <= i < |s.active| && !s.active[i].settled
  }

  predicate Holds(s: State, i: nat)
    requires i < |s.active|
  {
    var r := s.active[i].reservation;
    r.workerId in s.pool.workers && s.pool.workers[r.workerId] == r
  }

  /** The pool's reservations are the foreign ones and those of the unsettled tasks. */
  ghost predicate Owned(c: Context, s: State) {
    && (c.alone ==> s.foreign == map[])
    && (forall i :: Unsettled(s, i) ==> Holds(s, i) && s.active[i].reservation.workerId !in s.foreign)
    && (forall i, j :: Unsettled(s, i) && Unsettled(s, j) && i != j ==>
          s.active[i].reservation.workerId != s.active[j].reservation.workerId)
    && (forall w :: w in s.pool.workers && w !in s.foreign ==>
          exists i :: Unsettled(s, i) && s.active[i].reservation.workerId == w)
    && (forall w :: w in s.foreign ==> w in s.pool.workers && s.pool.workers[w] == s.foreign[w])
  }

  /** The run is in direct mode and has the scheduler to itself. */
  predicate DirectAndAlone(c: Context) {
    c.z.cfg.connectionMode == Direct && c.alone
  }

  /** And the clock stands still between awaits. */
  predicate StillAndAlone(c: Context) {
    DirectAndAlone(c) && c.frozen
  }

  predicate NeverGaveUp(s: State) {
    forall i :: 0 <= i < |s.blocked| ==> s.blocked[i].reason != CapacityExhausted
  }

  /** Why a job is given up when nothing is active and no cooldown is awaited (line 821). */
  function GiveUpReason(c: Context): Reason {
    if c.z.cfg.connectionMode == Direct then CapacityExhausted else NoEligibleProxy
  }

  /** Each job is listed with a reason that fits its list: skipped for a claim conflict, or because the run
      was cancelled; blocked by an error of the reservation, or given up. */
  predicate Explained(c: Context, s: State) {
    && (forall i :: 0 <= i < |s.completed| ==> s.completed[i].reason == Done)
    && (forall i :: 0 <= i < |s.failed| ==> s.failed[i].reason == Failed)
    && (forall i :: 0 <= i < |s.skipped| ==>
           s.skipped[i].reason == ClaimConflict || (s.skipped[i].reason == Cancelled && s.cancelled))
    && (forall i :: 0 <= i < |s.blocked| ==>
           || s.blocked[i].reason.SchedulerError?
           || s.blocked[i].reason == (if c.z.cfg.connectionMode == Direct then CapacityExhausted else NoEligibleProxy))
  }

  predicate ValidContext(c: Context) {
    ValidSettings(c.z) && FromCatalog(c.catalog, c.proxies)
  }

  ghost predicate Valid(c: Context, s: State) {
    && ValidContext(c)
    && Consistent(c.z, c.catalog, s.pool)
    && Partitioned(c, s)
    && Owned(c, s)
    && Explained(c, s)
    && (StillAndAlone(c) ==> NeverGaveUp(s))
  }

  // ----- What became of the jobs that were started -----

  /** A task has ended: its reservation, how its executor ended, and the circuit of its proxy before and after. */
  datatype Ended = Ended(reservation: Reservation, ending: Ending, before: Circuit, after: Circuit, atMs: int)

  /** The jobs that ended in one way, in the order in which they ended. */
  function JobsThat(log: seq<Ended>, which: Ending -> bool): seq<Job> {
    if log == [] then []
    else
      var n := |log| - 1;
      JobsThat(log[..n], which) + (if which(log[n].ending) then [log[n].reservation.job] else [])
  }

  predicate Normally(ending: Ending) { ending == Succeeds }
  predicate WithAnError(ending: Ending) { ending.Fails? }
  predicate WithAClaimConflict(ending: Ending) { ending == Skips }

  /** The jobs that are listed for a reason, in order. */
  function Listed(entries: seq<Entry>, reason: Reason): seq<Job> {
    if entries == [] then []
    else
      var n := |entries| - 1;
      Listed(entries[..n], reason) + (if entries[n].reason == reason then [entries[n].job] else [])
  }

  lemma ListedAppend(entries: seq<Entry>, e: Entry, reason: Reason)
    ensures Listed(entries + [e], reason) == Listed(entries, reason) + (if e.reason == reason then [e.job] else [])
  {
    assert (entries + [e])[..|entries|] == entries;
  }

  lemma JobsThatAppend(log: seq<Ended>, e: Ended, which: Ending -> bool)
    ensures JobsThat(log + [e], which)
         == JobsThat(log, which) + (if which(e.ending) then [e.reservation.job] else [])
  {
    assert (log + [e])[..|log|] == log;
  }

  /** One of them ended with the error that cancels the run. */
  predicate CancelledBy(log: seq<Ended>) {
    exists i :: 0 <= i < |log| && log[i].ending.Fails? && log[i].ending.cancels
  }

  /** The reservation is on the proxy that its job is bound to, and on none in direct mode. */
  predicate Binding(c: Context, r: Reservation) {
    if c.z.cfg.connectionMode == Direct then r.proxy.None? && !IsBound(r.job)
    else r.proxy.Some? && BoundTo(r.job, r.proxy.value.id) && !BoundTwice(r.job)
  }

  /** What the end of a task does to the circuit of its proxy. */
  predicate CircuitMoved(cfg: BreakerConfiguration, e: Ended) {
    var b, a := e.before, e.after;
    var oneLess := if b.probeInFlight == 0 then 0 else b.probeInFlight - 1;
    match e.ending
    case Succeeds =>
      && a.state == Closed && a.consecutiveFailures == 0 && a.openedUntilMs.None?
      && a.probeInFlight == if b.state == HalfOpen then oneLess else b.probeInFlight
    case Fails(proxyFault, _) =>
      if proxyFault then
        if b.state == HalfOpen then
          && a.state == Open && a.openedUntilMs == Some(e.atMs + cfg.openDurationMs)
          && a.consecutiveFailures == cfg.failureThreshold && a.probeInFlight == oneLess
        else
          && a.consecutiveFailures == b.consecutiveFailures + 1 && a.probeInFlight == b.probeInFlight
          && (if a.consecutiveFailures >= cfg.failureThreshold
              then a.state == Open && a.openedUntilMs == Some(e.atMs + cfg.openDurationMs)
              else a.state == b.state && a.openedUntilMs == b.openedUntilMs)
      else ProbeGivenBack(b, a, e.reservation.halfOpenProbe)
    case Skips => ProbeGivenBack(b, a, e.reservation.halfOpenProbe)
  }

  /** Nothing but the place of a half-open probe is given back. */
  predicate ProbeGivenBack(b: Circuit, a: Circuit, halfOpenProbe: bool) {
    && a.state == b.state && a.consecutiveFailures == b.consecutiveFailures && a.openedUntilMs == b.openedUntilMs
    && a.probeInFlight == if halfOpenProbe && b.state == HalfOpen && b.probeInFlight > 0 then b.probeInFlight - 1
                          else b.probeInFlight
  }

  /** A job that no worker may execute. */
  predicate MustConflict(c: Context, job: Job) {
    BoundTwice(job) || (c.z.cfg.connectionMode == Direct && IsBound(job))
  }

  /** The run has recorded these ends, and nothing else: the completed, the failed and the claim conflicts are the jobs
      that ended so, in order; the run is cancelled by one of them, or by the signal; every task was on the proxy
      of its job; and no job is blocked for a conflict that it does not have. */
  ghost predicate Recorded(c: Context, s: State, log: seq<Ended>) {
    && ListsRecorded(s, log)
    && (CancelledBy(log) ==> s.cancelled) && (!c.abortable && s.cancelled ==> CancelledBy(log))
    && (forall i :: 0 <= i < |s.active| ==> Binding(c, s.active[i].reservation))
    && (forall i :: 0 <= i < |log| ==> Binding(c, log[i].reservation))
    && (forall i :: 0 <= i < |log| && log[i].reservation.proxy.Some? ==> CircuitMoved(c.z.breaker, log[i]))
    && (forall i :: 0 <= i < |s.blocked| && s.blocked[i].reason == SchedulerError(AffinityConflict) ==>
          MustConflict(c, s.blocked[i].job))
  }

  predicate ListsRecorded(s: State, log: seq<Ended>) {
    && Listed(s.completed, Done) == JobsThat(log, Normally)
    && Listed(s.failed, Failed) == JobsThat(log, WithAnError)
    && Listed(s.skipped, ClaimConflict) == JobsThat(log, WithAClaimConflict)
  }

  /** The circuit of the proxy that a reservation is on. */
  function CircuitUnder(pool: Pool, r: Reservation): Circuit {
    if r.proxy.Some? then StateOf(pool.proxies, r.proxy.value.id).circuit else FRESH
  }

  // ----- The atomic pieces of a run -----

  /** Settling a task records its outcome and releases its reservation (lines 763-775). */
  function Settle(c: Context, s: State, i: nat, ending: Ending): State
    requires ValidContext(c) && i < |s.active|
  {
    var task := s.active[i];
    var job := task.reservation.job;
    s.(active := s.active[i := task.(settled := true)],
       pool := Release(c.z, s.pool, task.reservation, OutcomeOf(ending), s.nowMs),
       completed := if ending.Succeeds? then s.completed + [Entry(job, Done)] else s.completed,
       skipped := if ending.Skips? then s.skipped + [Entry(job, ClaimConflict)] else s.skipped,
       failed := if ending.Fails? then s.failed + [Entry(job, Failed)] else s.failed,
       cancelled := s.cancelled || (ending.Fails? && ending.cancels))
  }

  lemma SettlePartitioned(c: Context, s: State, i: nat, ending: Ending)
    requires ValidContext(c) && Partitioned(c, s) && Unsettled(s, i)
    ensures Partitioned(c, Settle(c, s, i, ending))
  {
    RunningSettle(s.active, i);
    var job := s.active[i].reservation.job;
    JobsOfAppend(s.completed, Entry(job, Done));
    JobsOfAppend(s.skipped, Entry(job, ClaimConflict));
    JobsOfAppend(s.failed, Entry(job, Failed));
  }

  lemma SettleOwned(c: Context, s: State, i: nat, ending: Ending)
    requires ValidContext(c) && Owned(c, s) && Unsettled(s, i)
    ensures Owned(c, Settle(c, s, i, ending))
  {
    var after := Settle(c, s, i, ending);
    assert Holds(s, i);
    assert after.pool.workers == s.pool.workers - {s.active[i].reservation.workerId};
    forall j | Unsettled(after, j)
      ensures Holds(after, j) && after.active[j].reservation.workerId !in s.foreign
      ensures Unsettled(s, j) && j != i && after.active[j] == s.active[j]
    {
      assert Unsettled(s, j) && Holds(s, j);
    }
    forall w | w in after.pool.workers && w !in s.foreign
      ensures exists j :: Unsettled(after, j) && after.active[j].reservation.workerId == w
    {
      var j :| Unsettled(s, j) && s.active[j].reservation.workerId == w;
      assert Unsettled(after, j);
    }
  }

  lemma SettleExplained(c: Context, s: State, i: nat, ending: Ending)
    requires ValidContext(c) && Explained(c, s) && i < |s.active|
    ensures Explained(c, Settle(c, s, i, ending))
  {
    hide ValidContext, Release;
  }

  lemma SettleValid(c: Context, s: State, i: nat, ending: Ending)
    requires Valid(c, s) && Unsettled(s, i)
    ensures Valid(c, Settle(c, s, i, ending))
  {
    SettlePartitioned(c, s, i, ending);
    SettleOwned(c, s, i, ending);
    SettleExplained(c, s, i, ending);
    assert Holds(s, i);
    hide Partitioned, Explained, Owned;
    NextKeepsConsistent(c.z, c.catalog, s.pool,
                        ReleaseWorker(s.active[i].reservation.workerId, OutcomeOf(ending), s.nowMs));
  }

  /** The end of a task, as the run sees it. */
  function EndOf(c: Context, s: State, i: nat, ending: Ending): Ended
    requires ValidContext(c) && i < |s.active|
  {
    var r := s.active[i].reservation;
    Ended(r, ending, CircuitUnder(s.pool, r), CircuitUnder(Settle(c, s, i, ending).pool, r), s.nowMs)
  }

  lemma EndMovesCircuit(c: Context, s: State, i: nat, ending: Ending)
    requires ValidContext(c) && Unsettled(s, i) && Holds(s, i) && s.active[i].reservation.proxy.Some?
    ensures CircuitMoved(c.z.breaker, EndOf(c, s, i, ending))
  {
  }

  lemma CancelledAppend(log: seq<Ended>, e: Ended)
    ensures CancelledBy(log + [e]) <==> CancelledBy(log) || (e.ending.Fails? && e.ending.cancels)
  {
    var all := log + [e];
    if CancelledBy(log) {
      var i :| 0 <= i < |log| && log[i].ending.Fails? && log[i].ending.cancels;
      assert all[i] == log[i];
    }
    assert all[|log|] == e;
  }

  lemma SettleRecorded(c: Context, s: State, i: nat, ending: Ending, log: seq<Ended>)
    requires ValidContext(c) && Unsettled(s, i) && Holds(s, i) && Recorded(c, s, log)
    ensures Recorded(c, Settle(c, s, i, ending), log + [EndOf(c, s, i, ending)])
  {
    hide JobsThat, Listed, ListsRecorded, CancelledBy, Release, CircuitMoved, Binding, ValidContext, Holds,
         MustConflict, CircuitUnder;
    if s.active[i].reservation.proxy.Some? {
      EndMovesCircuit(c, s, i, ending);
    }
    SettleLists(c, s, i, ending, log);
    CancelledAppend(log, EndOf(c, s, i, ending));
  }

  lemma SettleLists(c: Context, s: State, i: nat, ending: Ending, log: seq<Ended>)
    requires ValidContext(c) && i < |s.active| && ListsRecorded(s, log)
    ensures ListsRecorded(Settle(c, s, i, ending), log + [EndOf(c, s, i, ending)])
  {
    hide JobsThat, Listed, Release, CircuitUnder, ValidContext;
    var e, job := EndOf(c, s, i, ending), s.active[i].reservation.job;
    var all := log + [e];
    ListedAppend(s.completed, Entry(job, Done), Done);
    ListedAppend(s.failed, Entry(job, Failed), Failed);
    ListedAppend(s.skipped, Entry(job, ClaimConflict), ClaimConflict);
    JobsThatAppend(log, e, Normally);
    JobsThatAppend(log, e, WithAnError);
    JobsThatAppend(log, e, WithAClaimConflict);
    NothingAdded(JobsThat(log, Normally));
    NothingAdded(JobsThat(log, WithAnError));
    NothingAdded(JobsThat(log, WithAClaimConflict));
  }

  lemma NothingAdded<T>(s: seq<T>)
    ensures s + [] == s
  {
  }

  /** Nothing has ended, and no other task is there. */
  predicate SameEnds(c: Context, s: State, t: State) {
    && t.completed == s.completed && t.failed == s.failed && t.skipped == s.skipped && t.active == s.active
    && (t.cancelled == s.cancelled || (t.cancelled && c.abortable))
  }

  lemma SameRecorded(c: Context, s: State, t: State, log: seq<Ended>)
    requires Recorded(c, s, log) && SameEnds(c, s, t) && t.blocked == s.blocked
    ensures Recorded(c, t, log)
  {
    hide JobsThat, Listed, CancelledBy, CircuitMoved, Binding;
  }

  lemma RemoveRecorded(c: Context, s: State, i: nat, log: seq<Ended>)
    requires i < |s.active| && Recorded(c, s, log)
    ensures Recorded(c, Remove(s, i), log)
  {
    hide JobsThat, Listed, CancelledBy, CircuitMoved, Binding;
  }

  lemma BlockRecorded(c: Context, s: State, i: nat, reason: Reason, log: seq<Ended>)
    requires i < |s.pending| && Recorded(c, s, log)
    requires reason == SchedulerError(AffinityConflict) ==> MustConflict(c, s.pending[i])
    ensures Recorded(c, Block(s, i, reason), log)
  {
    hide JobsThat, Listed, CancelledBy, CircuitMoved, Binding, MustConflict;
  }

  lemma SkipFirstRecorded(c: Context, s: State, log: seq<Ended>)
    requires s.pending != [] && Recorded(c, s, log)
    ensures Recorded(c, SkipFirst(s), log)
  {
    hide JobsThat, Listed, CancelledBy, CircuitMoved, Binding, MustConflict;
    ListedAppend(s.skipped, Entry(s.pending[0], Cancelled), ClaimConflict);
    NothingAdded(Listed(s.skipped, ClaimConflict));
  }

  lemma BeginRecorded(c: Context, s: State, i: nat, r: Reservation, pool: Pool, log: seq<Ended>)
    requires i < |s.pending| && Recorded(c, s, log) && Binding(c, r)
    ensures Recorded(c, Begin(s, i, r, pool), log)
  {
    hide JobsThat, Listed, CancelledBy, CircuitMoved, Binding;
  }

  lemma NothingRecorded(c: Context, s: State)
    requires s.active == [] && s.completed == [] && s.failed == [] && s.skipped == [] && s.blocked == []
    requires !s.cancelled
    ensures Recorded(c, s, [])
  {
  }

  /** The promise reaction that takes a settled task out of `active` (line 781). */
  function Remove(s: State, i: nat): State
    requires i < |s.active|
  {
    s.(active := s.active[..i] + s.active[i + 1..])
  }

  lemma RemoveValid(c: Context, s: State, i: nat)
    requires Valid(c, s) && i < |s.active| && s.active[i].settled
    ensures Valid(c, Remove(s, i))
  {
    RunningRemove(s.active, i);
    RemoveOwned(c, s, i);
  }

  lemma RemoveOwned(c: Context, s: State, i: nat)
    requires Owned(c, s) && i < |s.active| && s.active[i].settled
    ensures Owned(c, Remove(s, i))
  {
    var after := Remove(s, i);
    forall j | Unsettled(after, j)
      ensures var k := if j < i then j else j + 1; Unsettled(s, k) && after.active[j] == s.active[k]
      ensures Holds(after, j) && after.active[j].reservation.workerId !in s.foreign
    {
      var k := if j < i then j else j + 1;
      assert Unsettled(s, k) && Holds(s, k);
    }
    forall w | w in after.pool.workers && w !in s.foreign
      ensures exists j :: Unsettled(after, j) && after.active[j].reservation.workerId == w
    {
      var k :| Unsettled(s, k) && s.active[k].reservation.workerId == w;
      assert Unsettled(after, if k < i then k else k - 1);
    }
  }

  /** Taking a pending job out of the list and putting it among the blocked ones (lines 806-807). */
  function Block(s: State, i: nat, reason: Reason): State
    requires i < |s.pending|
  {
    s.(pending := s.pending[..i] + s.pending[i + 1..], blocked := s.blocked + [Entry(s.pending[i], reason)])
  }

  lemma BlockValid(c: Context, s: State, i: nat, reason: Reason)
    requires Valid(c, s) && i < |s.pending| && (StillAndAlone(c) ==> reason != CapacityExhausted)
    requires reason.SchedulerError? || reason == GiveUpReason(c)
    ensures Valid(c, Block(s, i, reason))
  {
    hide Consistent, Owned, Partitioned, Explained, NeverGaveUp;
    BlockPartitioned(c, s, i, reason);
    SamePoolOwned(c, s, Block(s, i, reason));
    BlockExplained(c, s, i, reason);
  }

  lemma BlockExplained(c: Context, s: State, i: nat, reason: Reason)
    requires i < |s.pending| && Explained(c, s) && (reason.SchedulerError? || reason == GiveUpReason(c))
    ensures Explained(c, Block(s, i, reason))
    ensures NeverGaveUp(s) && reason != CapacityExhausted ==> NeverGaveUp(Block(s, i, reason))
  {
  }

  lemma BlockPartitioned(c: Context, s: State, i: nat, reason: Reason)
    requires Partitioned(c, s) && i < |s.pending|
    ensures Partitioned(c, Block(s, i, reason))
  {
    PendingRemove(s.pending, i);
    JobsOfAppend(s.blocked, Entry(s.pending[i], reason));
  }

  function SkipFirst(s: State): State
    requires s.pending != []
  {
    s.(pending := s.pending[1..], skipped := s.skipped + [Entry(s.pending[0], Cancelled)])
  }

  lemma SkipFirstValid(c: Context, s: State)
    requires Valid(c, s) && s.pending != [] && s.cancelled
    ensures Valid(c, SkipFirst(s))
  {
    hide Consistent, Owned;
    SkipFirstPartitioned(c, s);
    SamePoolOwned(c, s, SkipFirst(s));
  }

  lemma SkipFirstPartitioned(c: Context, s: State)
    requires Partitioned(c, s) && s.pending != []
    ensures Partitioned(c, SkipFirst(s))
  {
    assert s.pending == [s.pending[0]] + s.pending[1..];
    JobsOfAppend(s.skipped, Entry(s.pending[0], Cancelled));
  }

  lemma SamePoolOwned(c: Context, s: State, t: State)
    requires Owned(c, s) && t.active == s.active && t.pool.workers == s.pool.workers && t.foreign == s.foreign
    ensures Owned(c, t)
  {
    forall i | Unsettled(t, i) ensures Holds(t, i) && t.active[i].reservation.workerId !in s.foreign {
      assert Unsettled(s, i) && Holds(s, i);
    }
    forall w | w in t.pool.workers && w !in s.foreign
      ensures exists j :: Unsettled(t, j) && t.active[j].reservation.workerId == w
    {
      var j :| Unsettled(s, j) && s.active[j].reservation.workerId == w;
      assert Unsettled(t, j);
    }
  }

  /** Two states with the same jobs in the same places. */
  predicate SameJobs(s: State, t: State) {
    && t.pending == s.pending && t.active == s.active
    && t.completed == s.completed && t.failed == s.failed && t.skipped == s.skipped && t.blocked == s.blocked
  }

  lemma SameJobsValid(c: Context, s: State, t: State)
    requires Valid(c, s) && SameJobs(s, t) && Consistent(c.z, c.catalog, t.pool)
    requires t.pool.workers == s.pool.workers && t.foreign == s.foreign
    requires s.cancelled ==> t.cancelled
    ensures Valid(c, t)
  {
    SamePoolOwned(c, s, t);
    SameJobsParts(c, s, t);
  }

  /** Starting pending job `i` with its reservation (lines 801-802). */
  function Begin(s: State, i: nat, r: Reservation, pool: Pool): State
    requires i < |s.pending|
  {
    s.(pending := s.pending[..i] + s.pending[i + 1..], active := s.active + [Task(r, false)], pool := pool)
  }

  lemma BeginValid(c: Context, s: State, i: nat, r: Reservation, pool: Pool)
    requires Valid(c, s) && i < |s.pending| && r.job == s.pending[i] && r.workerId !in s.pool.workers
    requires Consistent(c.z, c.catalog, pool) && pool.workers == s.pool.workers[r.workerId := r]
    ensures Valid(c, Begin(s, i, r, pool))
  {
    hide Consistent, Owned, Explained, NeverGaveUp, Partitioned;
    BeginPartitioned(c, s, i, r, pool);
    BeginOwned(c, s, i, r, pool);
    BeginExplained(c, s, i, r, pool);
  }

  lemma BeginPartitioned(c: Context, s: State, i: nat, r: Reservation, pool: Pool)
    requires Partitioned(c, s) && i < |s.pending| && r.job == s.pending[i]
    ensures Partitioned(c, Begin(s, i, r, pool))
  {
    PendingRemove(s.pending, i);
    RunningSplit(s.active, [Task(r, false)]);
    RunningOne(Task(r, false));
  }

  lemma BeginExplained(c: Context, s: State, i: nat, r: Reservation, pool: Pool)
    requires i < |s.pending|
    ensures Explained(c, Begin(s, i, r, pool)) <==> Explained(c, s)
    ensures NeverGaveUp(Begin(s, i, r, pool)) <==> NeverGaveUp(s)
  {
  }

  lemma BeginOwned(c: Context, s: State, i: nat, r: Reservation, pool: Pool)
    requires Owned(c, s) && i < |s.pending| && r.workerId !in s.pool.workers
      && pool.workers == s.pool.workers[r.workerId := r]
    ensures Owned(c, Begin(s, i, r, pool))
  {
    var after := Begin(s, i, r, pool);
    var n := |s.active|;
    forall j | Unsettled(after, j)
      ensures Holds(after, j) && after.active[j].reservation.workerId !in s.foreign
      ensures j < n ==>
         Unsettled(s, j) && after.active[j] == s.active[j] && s.active[j].reservation.workerId != r.workerId
    {
      if j < n {
        assert Unsettled(s, j) && Holds(s, j);
      }
    }
    forall w | w in after.pool.workers && w !in s.foreign
      ensures exists j :: Unsettled(after, j) && after.active[j].reservation.workerId == w
    {
      if w == r.workerId {
        assert Unsettled(after, n);
      } else {
        var j :| Unsettled(s, j) && s.active[j].reservation.workerId == w;
        assert Unsettled(after, j);
      }
    }
  }

  /** With no task, only others hold reservations. */
  lemma NoTasksNoWorkers(c: Context, s: State)
    requires Owned(c, s) && s.active == []
    ensures s.pool.workers == s.foreign
  {
    assert forall i :: !Unsettled(s, i);
  }

  lemma AloneHoldsNothing(c: Context, s: State)
    requires Owned(c, s) && c.alone
    ensures s.foreign == map[]
  {
  }

  lemma ValidParts(c: Context, s: State)
    requires Valid(c, s)
    ensures ValidContext(c) && Consistent(c.z, c.catalog, s.pool) && Partitioned(c, s) && Owned(c, s) && Explained(c, s)
    ensures StillAndAlone(c) ==> NeverGaveUp(s)
  {
  }

  // ----- The loop -----

  /** The clock, read between two awaits. */
  method ReadClock(c: Context, nowMs: int) returns (t: int)
    ensures t >= nowMs
    ensures c.frozen ==> t == nowMs
  {
    var later: int := *;
    t := if !c.frozen && later > nowMs then later else nowMs;
  }

  /** Readings of the clock between two awaits. */
  predicate Clock(c: Context, startMs: int, readings: seq<int>) {
    && (forall i :: 0 <= i < |readings| ==> startMs <= readings[i] && (c.frozen ==> readings[i] == startMs))
    && (forall i, j :: 0 <= i < j < |readings| ==> readings[i] <= readings[j])
  }

  method ReadClocks(c: Context, startMs: int, n: nat) returns (readings: seq<int>)
    ensures |readings| == n && Clock(c, startMs, readings)
  {
    readings := [];
    var nowMs := startMs;
    while |readings| < n
      invariant |readings| <= n && Clock(c, startMs, readings) && startMs <= nowMs && (c.frozen ==> nowMs == startMs)
      invariant forall i :: 0 <= i < |readings| ==> readings[i] <= nowMs
    {
      nowMs := ReadClock(c, nowMs);
      readings := readings + [nowMs];
    }
  }

  // ----- Others on the same scheduler -----

  /** A reservation by somebody else, or a release of one that somebody else holds. */
  predicate ForeignMove(c: Context, s: State, m: Move) {
    !c.alone && FromRun(c.catalog, m) && (m.ReleaseWorker? ==> m.workerId in s.foreign)
  }

  function Foreign(c: Context, s: State, m: Move): State
    requires ValidContext(c)
  {
    var pool := Next(c.z, s.pool, m);
    s.(pool := pool,
       foreign := map w | w in pool.workers && (w in s.foreign || w !in s.pool.workers) :: pool.workers[w])
  }

  lemma NextWorkers(z: Settings, pool: Pool, m: Move)
    requires ValidSettings(z) && forall w :: w in pool.workers ==> pool.workers[w].workerId == w
    ensures var after := Next(z, pool, m).workers;
            if m.ReleaseWorker? then after == pool.workers - {m.workerId}
            else
              || after == pool.workers
              || (m.workerId !in pool.workers && m.workerId in after
                  && after == pool.workers[m.workerId := after[m.workerId]])
  {
    hide SelectFrom;
    if m.TryReserve? {
      ReserveAnswers(z, pool, m.paused, m.workerId, m.idValid, m.job, m.offer);
    }
  }

  lemma ForeignOwned(c: Context, s: State, m: Move)
    requires ValidContext(c) && Owned(c, s) && ForeignMove(c, s, m)
    requires forall w :: w in s.pool.workers ==> s.pool.workers[w].workerId == w
    ensures Owned(c, Foreign(c, s, m))
  {
    hide Next, ValidContext;
    var after := Foreign(c, s, m);
    assert ValidSettings(c.z) by {
      ContextSettings(c);
    }
    NextWorkers(c.z, s.pool, m);
    forall i | Unsettled(after, i)
      ensures Holds(after, i) && after.active[i].reservation.workerId !in after.foreign
    {
      assert Unsettled(s, i) && Holds(s, i);
    }
    forall i, j | Unsettled(after, i) && Unsettled(after, j) && i != j
      ensures after.active[i].reservation.workerId != after.active[j].reservation.workerId
    {
      assert Unsettled(s, i) && Unsettled(s, j);
    }
    forall w | w in after.pool.workers && w !in after.foreign
      ensures exists j :: Unsettled(after, j) && after.active[j].reservation.workerId == w
    {
      var j :| Unsettled(s, j) && s.active[j].reservation.workerId == w;
      assert Unsettled(after, j);
    }
  }

  lemma ContextSettings(c: Context)
    requires ValidContext(c)
    ensures ValidSettings(c.z)
  {
  }

  lemma ForeignValid(c: Context, s: State, m: Move)
    requires Valid(c, s) && ForeignMove(c, s, m)
    ensures Valid(c, Foreign(c, s, m)) && SameJobs(s, Foreign(c, s, m))
  {
    hide Valid, Owned, Next, Partitioned, Explained, NeverGaveUp, ValidContext;
    ValidParts(c, s);
    ContextSettings(c);
    NextKeepsConsistent(c.z, c.catalog, s.pool, m);
    ConsistentWorkers(c, s.pool);
    hide Consistent;
    ForeignOwned(c, s, m);
    SameJobsParts(c, s, Foreign(c, s, m));
  }

  lemma ConsistentWorkers(c: Context, pool: Pool)
    requires Consistent(c.z, c.catalog, pool)
    ensures forall w :: w in pool.workers ==> pool.workers[w].workerId == w
  {
  }

  lemma SameJobsParts(c: Context, s: State, t: State)
    requires Valid(c, s) && SameJobs(s, t) && Consistent(c.z, c.catalog, t.pool) && Owned(c, t)
    requires s.cancelled ==> t.cancelled
    ensures Valid(c, t)
  {
    hide Consistent, Owned;
  }

  /** While the run is suspended, others on the scheduler make any moves of their own. */
  method Others(c: Context, s: State) returns (t: State)
    requires Valid(c, s)
    ensures Valid(c, t) && SameJobs(s, t) && t.nowMs == s.nowMs && t.cancelled == s.cancelled
  {
    hide Valid, Foreign;
    t := s;
    var moves: nat := *;
    while moves > 0
      invariant Valid(c, t) && SameJobs(s, t) && t.nowMs == s.nowMs && t.cancelled == s.cancelled
    {
      var m: Move := *;
      if ForeignMove(c, t, m) {
        ForeignValid(c, t, m);
        ValidParts(c, t);
        OnlyForeign(c, t, m);
        t := Foreign(c, t, m);
      }
      moves := moves - 1;
    }
  }

  lemma OnlyForeign(c: Context, s: State, m: Move)
    requires ValidContext(c)
    ensures var t := Foreign(c, s, m); t.nowMs == s.nowMs && t.cancelled == s.cancelled
  {
  }

  /** What happens while the run is suspended: others reserve and release, the clock moves on, executors use
      the network budget in any way, and the signal may abort the run. */
  method Interfere(c: Context, s: State, mayAbort: bool) returns (t: State)
    requires Valid(c, s)
    ensures Valid(c, t) && SameJobs(s, t) && t.nowMs >= s.nowMs && SameEnds(c, s, t)
    ensures s.cancelled ==> t.cancelled
  {
    hide Valid, Consistent, Owned;
    var u := Others(c, s);
    var later: int := *;
    var budget: OriginBudget.Budget := *;
    var aborted: bool := *;
    t := u.(nowMs := if later > u.nowMs then later else u.nowMs, budget := budget,
            cancelled := u.cancelled || (mayAbort && c.abortable && aborted));
    ValidParts(c, u);
    SameJobsValid(c, u, t);
  }

  /** `await Promise.race([...active.keys()])`: any tasks settle, in any order, and at least one settled
      task has left `active` when the run resumes. */
  method AwaitRace(c: Context, s: State, ghost log: seq<Ended>) returns (t: State, ghost now: seq<Ended>)
    requires Valid(c, s) && s.active != [] && Recorded(c, s, log)
    ensures Valid(c, t) && t.pending == s.pending && |t.active| < |s.active|
    ensures Recorded(c, t, now) && log <= now
    ensures s.cancelled ==> t.cancelled
  {
    hide Valid, Recorded, SameEnds;
    now := log;
    t := Interfere(c, s, false);
    SameRecorded(c, s, t, now);
    var k := 0;
    while k < |s.active|
      invariant Valid(c, t) && t.pending == s.pending && |t.active| == |s.active| && (s.cancelled ==> t.cancelled)
      invariant Recorded(c, t, now) && log <= now
    {
      var i: nat := *;
      var ending: Ending := *;
      if 0 <= i < |t.active| && !t.active[i].settled {
        t, now := End(c, t, i, ending, now);
        ghost var u := t;
        t := Interfere(c, t, false);
        SameRecorded(c, u, t, now);
      }
      k := k + 1;
    }
    var first: nat := *;
    first := if 0 <= first < |t.active| then first else 0;
    if !t.active[first].settled {
      var ending: Ending := *;
      t, now := End(c, t, first, ending, now);
    }
    RemoveValid(c, t, first);
    RemoveRecorded(c, t, first, now);
    t := Remove(t, first);
    k := 0;
    while k < |s.active|
      invariant Valid(c, t) && t.pending == s.pending && |t.active| < |s.active| && (s.cancelled ==> t.cancelled)
      invariant Recorded(c, t, now) && log <= now
    {
      var i: nat := *;
      if 0 <= i < |t.active| && t.active[i].settled {
        RemoveValid(c, t, i);
        RemoveRecorded(c, t, i, now);
        t := Remove(t, i);
      }
      k := k + 1;
    }
  }

  /** The executor of a task ends in this way, which is recorded (lines 763-775). */
  method End(c: Context, s: State, i: nat, ending: Ending, ghost log: seq<Ended>)
    returns (t: State, ghost now: seq<Ended>)
    requires Valid(c, s) && Unsettled(s, i) && Recorded(c, s, log)
    ensures Valid(c, t) && Recorded(c, t, now) && t.active == s.active[i := s.active[i].(settled := true)]
    ensures |now| == |log| + 1 && now[..|log|] == log
    ensures now[|log|].ending == ending && now[|log|].reservation == s.active[i].reservation
    ensures t.pending == s.pending && (s.cancelled ==> t.cancelled)
  {
    hide Valid, Recorded, Release;
    ValidParts(c, s);
    assert Holds(s, i);
    SettleValid(c, s, i, ending);
    SettleRecorded(c, s, i, ending, log);
    t, now := Settle(c, s, i, ending), log + [EndOf(c, s, i, ending)];
  }

  /** What the reservation for a pending job looked at. */
  datatype Look = Look(pool: Pool, atMs: int, offer: Offer)

  /** The job could not be served from a pool loaded as the pool is now, under the cooldowns there are now. */
  ghost predicate TurnedDown(c: Context, s: State, job: Job, look: Look) {
    && OnlyTicked(look.pool, s.pool) && look.offer.proxies == c.proxies
    && look.atMs <= s.nowMs && (c.frozen ==> look.atMs == s.nowMs)
    && !Servable(c.z, look.pool, OriginBudget.InCooldown(CooldownOf(s.budget, job.origin), look.atMs), job, look.offer)
  }

  /** What a refused reservation leaves: the same jobs, loads and cooldowns. */
  ghost predicate RefusedBy(c: Context, s: State, t: State, i: nat, look: Look)
    requires i < |s.pending|
  {
    && SameJobs(s, t) && t.nowMs >= s.nowMs && (c.frozen ==> t.nowMs == s.nowMs)
    && (forall o: string :: CooldownOf(t.budget, o) == CooldownOf(s.budget, o))
    && OnlyTicked(s.pool, t.pool) && TurnedDown(c, t, s.pending[i], look)
  }

  lemma RefusalLeaves(c: Context, s: State, t: State, i: nat, workerId: nat, offer: Offer)
    requires ValidContext(c) && i < |s.pending| && SameJobs(s, t) && offer.proxies == c.proxies
    requires t.nowMs >= s.nowMs && (c.frozen ==> t.nowMs == s.nowMs)
    requires t.budget == OriginBudget.Step(c.z.cfg, s.budget, OriginBudget.AskPaused(s.pending[i].origin), t.nowMs)
    requires var job := s.pending[i];
             Reserve(c.z, s.pool, OriginBudget.Paused(c.z.cfg, s.budget, job.origin, t.nowMs), workerId,
                     workerId <= c.idLimit, job, offer) == (t.pool, NoCapacity)
    ensures RefusedBy(c, s, t, i, Look(s.pool, t.nowMs, offer))
  {
    hide Reserve, SameJobs, Servable, OnlyTicked;
    var job := s.pending[i];
    var paused := OriginBudget.Paused(c.z.cfg, s.budget, job.origin, t.nowMs);
    AskingKeepsCooldowns(c.z.cfg, s.budget, job.origin, t.nowMs);
    PausedIsCooldown(c.z.cfg, s.budget, job.origin, t.nowMs);
    TurnedDownExactly(c.z, s.pool, paused, workerId, workerId <= c.idLimit, job, offer);
    hide CooldownOf, OriginBudget.Step;
  }

  /** Starting a task, which runs up to its first await, or settles at once (lines 755-782). */
  method StartTask(c: Context, s: State, i: nat, r: Reservation, pool: Pool, ghost log: seq<Ended>)
    returns (t: State, ghost now: seq<Ended>)
    requires Valid(c, s) && i < |s.pending| && r.job == s.pending[i] && r.workerId !in s.pool.workers
    requires Consistent(c.z, c.catalog, pool) && pool.workers == s.pool.workers[r.workerId := r]
    requires Recorded(c, s, log) && Binding(c, r)
    ensures Valid(c, t) && (s.cancelled ==> t.cancelled) && Recorded(c, t, now) && log <= now
    ensures t.pending == s.pending[..i] + s.pending[i + 1..]
    ensures |t.active| == |s.active| + 1 && t.active[..|s.active|] == s.active && t.active[|s.active|].reservation == r
  {
    hide Valid, Consistent, Recorded, Binding, SameEnds;
    BeginValid(c, s, i, r, pool);
    BeginRecorded(c, s, i, r, pool, log);
    var u := Begin(s, i, r, pool);
    now := log;
    t := Interfere(c, u, false);
    SameRecorded(c, u, t, now);
    var ending: Ending := *;
    var atOnce: bool := *;
    if atOnce {
      assert t.active[|t.active| - 1] == Task(r, false);
      t, now := End(c, t, |t.active| - 1, ending, now);
    }
  }

  /** One pass of the inner loop (lines 792-810): reserve for a pending job, and start or block it. */
  method Attempt(c: Context, s: State, i: nat, ghost log: seq<Ended>)
    returns (t: State, scheduled: bool, ghost now: seq<Ended>, ghost look: Look)
    requires Valid(c, s) && i < |s.pending| && Recorded(c, s, log)
    ensures Valid(c, t) && (s.cancelled ==> t.cancelled) && Recorded(c, t, now) && log <= now
    ensures |t.active| >= |s.active| && (t.active == [] ==> t.cancelled == s.cancelled)
    ensures !scheduled ==> RefusedBy(c, s, t, i, look)
    ensures scheduled ==> t.pending == s.pending[..i] + s.pending[i + 1..]
    ensures scheduled ==>
      if |t.active| == |s.active|
      then t.active == s.active && exists e :: t.blocked == s.blocked + [Entry(s.pending[i], SchedulerError(e))]
      else
        && |t.active| == |s.active| + 1 && t.active[..|s.active|] == s.active
        && t.active[|s.active|].reservation.job == s.pending[i]
  {
    hide Valid, Consistent, Reserve, RefusedBy, CooldownOf, OriginBudget.Step, OriginBudget.Paused, Recorded,
         MustConflict, Binding;
    now := log;
    ValidParts(c, s);
    hide Partitioned, Owned, Explained, NeverGaveUp;
    var job := s.pending[i];
    var workerId := s.sequence + 1;
    var idValid := workerId <= c.idLimit;
    var credentials: set<ProxyId> := *;
    var nowMs := ReadClock(c, s.nowMs);
    var paused := OriginBudget.Paused(c.z.cfg, s.budget, job.origin, nowMs);
    var eligibleMs := ReadClock(c, nowMs);
    var snapshotMs := ReadClock(c, eligibleMs);
    var probeMs := ReadClock(c, snapshotMs);
    var startedMs := ReadClock(c, probeMs);
    var offer := Offer(c.proxies, credentials, eligibleMs, snapshotMs, probeMs, startedMs);
    look := Look(s.pool, nowMs, offer);
    var (pool, answer) := Reserve(c.z, s.pool, paused, workerId, idValid, job, offer);
    ReserveKeepsConsistent(c.z, c.catalog, s.pool, paused, workerId, idValid, job, offer);
    ReserveAnswers(c.z, s.pool, paused, workerId, idValid, job, offer);
    AnswerKeepsBinding(c, s.pool, paused, workerId, idValid, job, offer);
    t := s.(sequence := workerId, nowMs := nowMs, pool := pool,
            budget := OriginBudget.Step(c.z.cfg, s.budget, OriginBudget.AskPaused(job.origin), nowMs));
    match answer {
      case NoCapacity =>
        scheduled := false;
        SameJobsValid(c, s, t);
        SameRecorded(c, s, t, log);
        RefusalLeaves(c, s, t, i, workerId, offer);
      case Granted(r) =>
        scheduled := true;
        var u := s.(sequence := workerId, nowMs := startedMs, budget := t.budget);
        SameJobsValid(c, s, u);
        SameRecorded(c, s, u, log);
        t, now := StartTask(c, u, i, r, pool, log);
      case Throws(e) =>
        scheduled := true;
        SameJobsValid(c, s, t);
        SameRecorded(c, s, t, log);
        BlockValid(c, t, i, SchedulerError(e));
        BlockRecorded(c, t, i, SchedulerError(e), log);
        t := Block(t, i, SchedulerError(e));
    }
  }

  lemma AnswerKeepsBinding(c: Context, pool: Pool, paused: bool, workerId: nat, idValid: bool, job: Job, offer: Offer)
    requires ValidSettings(c.z)
    ensures var answer := Reserve(c.z, pool, paused, workerId, idValid, job, offer).1;
            && (answer.Granted? ==> Binding(c, answer.reservation))
            && (answer == Throws(AffinityConflict) ==> MustConflict(c, job))
  {
    GrantedExactlyWhen(c.z, pool, paused, workerId, idValid, job, offer);
    hide Reserve;
  }

  /** Each of the pending jobs had a live cooldown at the reading of the clock for it. */
  predicate AllRefused(c: Context, s: State, passes: seq<int>) {
    && |passes| == |s.pending|
    && forall j :: 0 <= j < |passes| ==>
         && OriginBudget.InCooldown(CooldownOf(s.budget, s.pending[j].origin), passes[j])
         && passes[j] <= s.nowMs && (c.frozen ==> passes[j] == s.nowMs)
  }

  /** The first of the pending jobs, with a look for each, were turned down. */
  ghost predicate TurnedDownUpTo(c: Context, s: State, looks: seq<Look>) {
    && |looks| <= |s.pending|
    && forall j :: 0 <= j < |looks| ==> TurnedDown(c, s, s.pending[j], looks[j])
  }

  ghost predicate AllTurnedDown(c: Context, s: State, looks: seq<Look>) {
    |looks| == |s.pending| && TurnedDownUpTo(c, s, looks)
  }

  lemma NothingTurnedDown(c: Context, s: State)
    ensures TurnedDownUpTo(c, s, [])
  {
  }

  lemma TickedTwice(p: Pool, q: Pool, r: Pool)
    requires OnlyTicked(p, q) && OnlyTicked(q, r)
    ensures OnlyTicked(p, r)
  {
  }

  lemma TurnedDownStill(c: Context, s: State, t: State, job: Job, look: Look)
    requires TurnedDown(c, s, job, look) && OnlyTicked(s.pool, t.pool)
    requires t.nowMs >= s.nowMs && (c.frozen ==> t.nowMs == s.nowMs)
    requires CooldownOf(t.budget, job.origin) == CooldownOf(s.budget, job.origin)
    ensures TurnedDown(c, t, job, look)
  {
    TickedTwice(look.pool, s.pool, t.pool);
    hide OnlyTicked, Servable;
  }

  lemma OneMoreTurnedDown(c: Context, s: State, t: State, looks: seq<Look>, look: Look)
    requires TurnedDownUpTo(c, s, looks) && |looks| < |s.pending| && RefusedBy(c, s, t, |looks|, look)
    ensures TurnedDownUpTo(c, t, looks + [look]) && SameJobs(s, t)
  {
    hide TurnedDown, OnlyTicked;
    forall j | 0 <= j < |looks| ensures TurnedDown(c, t, t.pending[j], looks[j]) {
      TurnedDownStill(c, s, t, s.pending[j], looks[j]);
    }
  }

  function Times(looks: seq<Look>): (r: seq<int>)
    ensures |r| == |looks|
  {
    seq(|looks|, i requires 0 <= i < |looks| => looks[i].atMs)
  }

  /** In direct mode, alone and with nothing active, what is turned down had a live cooldown. */
  lemma DirectTurnsDownPaused(c: Context, s: State, looks: seq<Look>)
    requires Valid(c, s) && DirectAndAlone(c) && s.active == [] && AllTurnedDown(c, s, looks)
    ensures AllRefused(c, s, Times(looks))
  {
    hide Valid, Consistent, TurnedDown, Owned;
    ValidParts(c, s);
    NoTasksNoWorkers(c, s);
    AloneHoldsNothing(c, s);
    forall j | 0 <= j < |looks|
      ensures OriginBudget.InCooldown(CooldownOf(s.budget, s.pending[j].origin), looks[j].atMs)
      ensures looks[j].atMs <= s.nowMs && (c.frozen ==> looks[j].atMs == s.nowMs)
    {
      DirectServesUnlessPaused(c, s, s.pending[j], looks[j]);
    }
  }

  lemma DirectServesUnlessPaused(c: Context, s: State, job: Job, look: Look)
    requires Consistent(c.z, c.catalog, s.pool) && s.pool.workers == map[] && c.z.cfg.connectionMode == Direct
    requires TurnedDown(c, s, job, look)
    ensures OriginBudget.InCooldown(CooldownOf(s.budget, job.origin), look.atMs)
    ensures look.atMs <= s.nowMs && (c.frozen ==> look.atMs == s.nowMs)
  {
    assert OriginLoad(c.z, s.pool, job.origin);
    assert OnOrigin(s.pool.workers, job.origin) == {};
  }

  /** One turn of the scheduling loop: the jobs it turned down, from the first pending one on, and the state in which
      it came to the next one, if there is a next one. */
  datatype Round = Round(state: State, looks: seq<Look>)

  /** What is pending after a turn, which takes out the first job that it did not turn down. */
  function Left(r: Round): seq<Job> {
    var n := |r.looks|;
    if n < |r.state.pending| then r.state.pending[..n] + r.state.pending[n + 1..] else r.state.pending
  }

  function Leaves(jobs: seq<Job>, rounds: seq<Round>): seq<Job> {
    if rounds == [] then jobs else Left(rounds[|rounds| - 1])
  }

  /** Turn by turn, the jobs are taken in the order in which they are pending, except for those turned down. */
  ghost predicate InOrder(c: Context, jobs: seq<Job>, rounds: seq<Round>) {
    rounds != [] ==>
      var n := |rounds| - 1;
      && InOrder(c, jobs, rounds[..n])
      && rounds[n].state.pending == Leaves(jobs, rounds[..n])
      && TurnedDownUpTo(c, rounds[n].state, rounds[n].looks)
  }

  lemma OneMoreRound(c: Context, jobs: seq<Job>, rounds: seq<Round>, r: Round)
    requires InOrder(c, jobs, rounds) && r.state.pending == Leaves(jobs, rounds)
    requires TurnedDownUpTo(c, r.state, r.looks)
    ensures InOrder(c, jobs, rounds + [r]) && Leaves(jobs, rounds + [r]) == Left(r)
  {
    assert (rounds + [r])[..|rounds|] == rounds;
    hide TurnedDownUpTo;
  }

  /** The scheduling stops because every pending job is turned down. */
  ghost predicate Exhausted(c: Context, s: State, rounds: seq<Round>) {
    && rounds != [] && rounds[|rounds| - 1].state == s
    && AllTurnedDown(c, s, rounds[|rounds| - 1].looks)
  }

  /** One turn of the loop: pending jobs are tried in order until one is started or blocked. */
  method TryInOrder(c: Context, s: State, ghost log: seq<Ended>)
    returns (t: State, scheduled: bool, ghost now: seq<Ended>, ghost round: Round)
    requires Valid(c, s) && Recorded(c, s, log) && s.pending != []
    ensures Valid(c, t) && Recorded(c, t, now) && log <= now && (t.active == [] ==> t.cancelled == s.cancelled)
    ensures round.state.pending == s.pending && TurnedDownUpTo(c, round.state, round.looks) && t.pending == Left(round)
    ensures |t.active| >= |s.active|
    ensures scheduled ==> |t.pending| == |s.pending| - 1 && |t.active| <= |s.active| + 1
    ensures !scheduled ==> round.state == t && |round.looks| == |t.pending| && t.active == s.active
  {
    hide Valid, RefusedBy, TurnedDownUpTo, Recorded;
    t, scheduled, now, round := s, false, log, Round(s, []);
    var index := 0;
    NothingTurnedDown(c, t);
    while index < |t.pending| && !scheduled
      invariant Valid(c, t) && (t.active == [] ==> t.cancelled == s.cancelled)
      invariant Recorded(c, t, now) && log <= now
      invariant round.state.pending == s.pending && TurnedDownUpTo(c, round.state, round.looks)
      invariant !scheduled ==> SameJobs(s, t) && round.state == t && |round.looks| == index <= |t.pending|
      invariant scheduled ==> t.pending == Left(round) && |t.pending| == |s.pending| - 1
      invariant scheduled ==> |s.active| <= |t.active| <= |s.active| + 1
      decreases |s.pending| - index, !scheduled
    {
      ghost var look;
      t, scheduled, now, look := Attempt(c, t, index, now);
      if !scheduled {
        OneMoreTurnedDown(c, round.state, t, round.looks, look);
        round := Round(t, round.looks + [look]);
        index := index + 1;
      }
    }
  }

  /** The scheduling loop (lines 788-812), turn by turn. It stops when nothing is pending, all places are taken, or
      every pending job has been turned down. */
  method Schedule(c: Context, s: State, ghost log: seq<Ended>)
    returns (t: State, ghost rounds: seq<Round>, ghost now: seq<Ended>)
    requires Valid(c, s) && Recorded(c, s, log) && !s.cancelled
    ensures Valid(c, t) && |t.pending| + |t.active| <= |s.pending| + |s.active|
    ensures Recorded(c, t, now) && log <= now
    ensures t.active == [] ==> t.cancelled == s.cancelled
    ensures InOrder(c, s.pending, rounds) && t.pending == Leaves(s.pending, rounds)
    ensures t.pending == [] || |t.active| >= c.z.cfg.globalWorkerConcurrency || Exhausted(c, t, rounds)
  {
    hide Valid, InOrder, TurnedDownUpTo, Recorded, Left, ValidSettings;
    t, rounds, now := s, [], log;
    NoRounds(c, s.pending);
    var scheduled := true;
    while scheduled && |t.pending| > 0 && |t.active| < c.z.cfg.globalWorkerConcurrency
      invariant Valid(c, t) && |t.pending| + |t.active| <= |s.pending| + |s.active|
      invariant Recorded(c, t, now) && log <= now
      invariant t.active == [] ==> t.cancelled == s.cancelled
      invariant InOrder(c, s.pending, rounds) && t.pending == Leaves(s.pending, rounds)
      invariant !scheduled ==> Exhausted(c, t, rounds)
      decreases |t.pending|, scheduled
    {
      ghost var round;
      t, scheduled, now, round := TryInOrder(c, t, now);
      OneMoreRound(c, s.pending, rounds, round);
      rounds := rounds + [round];
    }
  }

  lemma NoRounds(c: Context, jobs: seq<Job>)
    ensures InOrder(c, jobs, [])
  {
  }

  /** A snapshot shows a cooldown that is live from some reading on exactly as the budget does. */
  ghost predicate Shows(snapshot: OriginBudget.Bucket, cooldown: Option<int>, nowMs: int) {
    forall t: int :: t >= nowMs ==>
      (OriginBudget.InCooldown(snapshot.cooldownUntilMs, t) <==> OriginBudget.InCooldown(cooldown, t))
  }

  /** The reading after the first `n` of them. */
  function ReadingAfter(startMs: int, readings: seq<int>, n: nat): int
    requires n <= |readings|
  {
    if n == 0 then startMs else readings[n - 1]
  }

  /** The snapshots of the pending jobs' origins, at these readings of the clock (line 816). */
  method TakeSnapshots(c: Context, s: State, looks: seq<int>) returns (t: State, snapshots: seq<OriginBudget.Bucket>)
    requires Valid(c, s) && |looks| == |s.pending| && Clock(c, s.nowMs, looks)
    ensures Valid(c, t) && SameJobs(s, t) && t.cancelled == s.cancelled && |snapshots| == |s.pending|
    ensures t.nowMs == ReadingAfter(s.nowMs, looks, |looks|)
    ensures forall i :: 0 <= i < |snapshots| ==> Shows(snapshots[i], CooldownOf(s.budget, s.pending[i].origin), t.nowMs)
  {
    hide Valid, Consistent, Shows, SameCooldowns;
    t := s;
    snapshots := [];
    NothingLooked(s);
    while |snapshots| < |s.pending|
      invariant |snapshots| <= |s.pending| && Valid(c, t) && SameJobs(s, t) && t.cancelled == s.cancelled
      invariant t.nowMs == ReadingAfter(s.nowMs, looks, |snapshots|) && SameCooldowns(s.budget, t.budget, t.nowMs)
      invariant forall i :: 0 <= i < |snapshots| ==>
        Shows(snapshots[i], CooldownOf(s.budget, s.pending[i].origin), t.nowMs)
    {
      ghost var before := t;
      var nowMs := looks[|snapshots|];
      var origin := t.pending[|snapshots|].origin;
      t := t.(nowMs := nowMs, budget := OriginBudget.Step(c.z.cfg, t.budget, OriginBudget.Snapshot(origin), nowMs));
      ValidParts(c, before);
      SameJobsValid(c, before, t);
      LookAgain(c, s, before, t, origin);
      forall i | 0 <= i < |snapshots|
        ensures Shows(snapshots[i], CooldownOf(s.budget, s.pending[i].origin), nowMs)
      {
        ShowsLater(snapshots[i], CooldownOf(s.budget, s.pending[i].origin), before.nowMs, nowMs);
      }
      snapshots := snapshots + [t.budget.buckets[origin]];
    }
  }

  lemma NothingLooked(s: State)
    ensures SameCooldowns(s.budget, s.budget, s.nowMs)
  {
  }

  lemma ShowsLater(snapshot: OriginBudget.Bucket, cooldown: Option<int>, fromMs: int, laterMs: int)
    requires Shows(snapshot, cooldown, fromMs) && fromMs <= laterMs
    ensures Shows(snapshot, cooldown, laterMs)
  {
  }

  lemma LookAgain(c: Context, s: State, u: State, t: State, origin: string)
    requires SameCooldowns(s.budget, u.budget, u.nowMs) && t.nowMs >= u.nowMs
    requires t.budget == OriginBudget.Step(c.z.cfg, u.budget, OriginBudget.Snapshot(origin), t.nowMs)
    ensures SameCooldowns(s.budget, t.budget, t.nowMs) && origin in t.budget.buckets
    ensures Shows(t.budget.buckets[origin], CooldownOf(s.budget, origin), t.nowMs)
  {
    LookingKeepsCooldowns(c.z.cfg, u.budget, origin, t.nowMs);
    hide CooldownOf, OriginBudget.Step;
    SnapshotShows(s.budget, t.budget, origin, t.nowMs);
  }

  lemma SnapshotShows(w: OriginBudget.Budget, v: OriginBudget.Budget, origin: string, nowMs: int)
    requires SameCooldowns(w, v, nowMs) && origin in v.buckets
    ensures Shows(v.buckets[origin], CooldownOf(w, origin), nowMs)
  {
    forall t: int | t >= nowMs
      ensures OriginBudget.InCooldown(v.buckets[origin].cooldownUntilMs, t)
        <==> OriginBudget.InCooldown(CooldownOf(w, origin), t)
    {
      assert OriginBudget.InCooldown(CooldownOf(v, origin), t) <==> OriginBudget.InCooldown(CooldownOf(w, origin), t);
    }
  }

  function Cooldowns(snapshots: seq<OriginBudget.Bucket>): (r: seq<Option<int>>)
    ensures |r| == |snapshots|
  {
    seq(|snapshots|, i requires 0 <= i < |snapshots| => snapshots[i].cooldownUntilMs)
  }

  /** The first snapshot in a cooldown, and whether it still is one (lines 816-817). */
  method FindCooldown(snapshots: seq<OriginBudget.Bucket>, readings: seq<int>) returns (found: bool)
    requires |readings| == |snapshots| + 1
    ensures found <==> Waits(Cooldowns(snapshots), readings)
  {
    var i := 0;
    while i < |snapshots|
      invariant i <= |snapshots|
      invariant forall j :: 0 <= j < i ==> !OriginBudget.InCooldown(snapshots[j].cooldownUntilMs, readings[j])
    {
      if snapshots[i].cooldownUntilMs.Some? && snapshots[i].cooldownUntilMs.value > readings[i] {
        StopsAt(Cooldowns(snapshots), readings, i);
        return snapshots[i].cooldownUntilMs.value > readings[i + 1];
      }
      i := i + 1;
    }
    return false;
  }

  lemma StopsAt(cooldowns: seq<Option<int>>, readings: seq<int>, i: nat)
    requires |readings| == |cooldowns| + 1 && FirstLive(cooldowns, readings, i)
    ensures Waits(cooldowns, readings) <==> OriginBudget.InCooldown(cooldowns[i], readings[i + 1])
  {
    forall j: nat | FirstLive(cooldowns, readings, j) ensures i == j {
      FirstLiveIsUnique(cooldowns, readings, i, j);
    }
  }

  /** Cooldowns that are live alike are waited for alike. */
  lemma WaitsAlike(cooldowns: seq<Option<int>>, shown: seq<Option<int>>, readings: seq<int>, startMs: int)
    requires |readings| == |cooldowns| + 1 && |shown| == |cooldowns|
    requires forall i :: 0 <= i < |readings| ==> startMs <= readings[i]
    requires forall i, t: int :: 0 <= i < |shown| && t >= startMs ==>
      (OriginBudget.InCooldown(shown[i], t) <==> OriginBudget.InCooldown(cooldowns[i], t))
    ensures Waits(shown, readings) <==> Waits(cooldowns, readings)
  {
    forall i: nat ensures FirstLive(shown, readings, i) <==> FirstLive(cooldowns, readings, i) {}
  }

  /** The list of blocked jobs once these are given up. */
  function GivenUp(c: Context, blocked: seq<Entry>, pending: seq<Job>): seq<Entry> {
    blocked + seq(|pending|, i requires 0 <= i < |pending| => Entry(pending[i], GiveUpReason(c)))
  }

  /** Blocks whatever is pending (line 821). */
  method GiveUp(c: Context, s: State, ghost log: seq<Ended>) returns (t: State)
    requires Valid(c, s) && !StillAndAlone(c) && Recorded(c, s, log)
    ensures Valid(c, t) && t.pending == [] && t.active == s.active && t.cancelled == s.cancelled
    ensures t.blocked == GivenUp(c, s.blocked, s.pending) && Recorded(c, t, log)
  {
    hide Valid, Recorded;
    t := s;
    while t.pending != []
      invariant Valid(c, t) && t.active == s.active && t.cancelled == s.cancelled && Recorded(c, t, log)
      invariant GivenUp(c, t.blocked, t.pending) == GivenUp(c, s.blocked, s.pending)
      decreases |t.pending|
    {
      var reason := if c.z.cfg.connectionMode == Direct then CapacityExhausted else NoEligibleProxy;
      BlockValid(c, t, 0, reason);
      BlockRecorded(c, t, 0, reason, log);
      GivenUpFirst(c, t.blocked, t.pending);
      t := Block(t, 0, reason);
    }
  }

  lemma GivenUpFirst(c: Context, blocked: seq<Entry>, pending: seq<Job>)
    requires pending != []
    ensures GivenUp(c, blocked + [Entry(pending[0], GiveUpReason(c))], pending[..0] + pending[1..])
         == GivenUp(c, blocked, pending)
  {
  }

  /** The end of an iteration with nothing active (lines 815-823): wait for the first live cooldown if it still is
      one at the next reading, or else block whatever is left. The clock is read for each snapshot, for each one
      that is searched, and once more. */
  method WaitOrGiveUp(c: Context, s: State, ghost looks: seq<Look>, clock: seq<int>, ghost log: seq<Ended>)
    returns (t: State, waited: bool)
    requires Valid(c, s) && s.active == [] && s.pending != [] && Recorded(c, s, log)
    requires AllTurnedDown(c, s, looks)
    requires |clock| == 2 * |s.pending| + 1 && Clock(c, s.nowMs, clock)
    ensures Valid(c, t) && t.active == [] && Recorded(c, t, log)
    ensures var cooldowns, readings := CooldownsOf(s.budget, s.pending), clock[|s.pending|..];
            && (waited <==> Waits(cooldowns, readings))
            && (DirectAndAlone(c) ==> (!waited <==> Expiring(cooldowns, Times(looks), readings)))
    ensures waited ==> t.pending == s.pending && t.blocked == s.blocked
    ensures !waited ==> t.pending == [] && t.blocked == GivenUp(c, s.blocked, s.pending)
    ensures StillAndAlone(c) ==> waited
  {
    hide Valid, Consistent, Recorded;
    var readings := clock[|s.pending|..];
    var snapshots;
    t, snapshots := TakeSnapshots(c, s, clock[..|s.pending|]);
    ghost var cooldowns := CooldownsOf(s.budget, s.pending);
    waited := FindCooldown(snapshots, readings);
    WaitsAlike(cooldowns, Cooldowns(snapshots), readings, t.nowMs);
    if DirectAndAlone(c) {
      DirectTurnsDownPaused(c, s, looks);
      ExpiringOrWaiting(cooldowns, Times(looks), readings);
      if c.frozen {
        assert FirstLive(cooldowns, readings, 0);
      }
    }
    var u := t.(nowMs := clock[|clock| - 1]);
    ValidParts(c, t);
    SameJobsValid(c, t, u);
    SameRecorded(c, s, u, log);
    if waited {
      t := Interfere(c, u, true);
      SameRecorded(c, u, t, log);
    } else {
      t := GiveUp(c, u, log);
    }
  }

  /** The top of an iteration: an aborted signal cancels the run (line 784). */
  method CheckSignal(c: Context, s: State, aborted: bool) returns (t: State)
    requires Valid(c, s)
    ensures Valid(c, t) && SameJobs(s, t) && SameEnds(c, s, t)
    ensures t.cancelled <==> s.cancelled || (c.abortable && aborted)
  {
    t := s.(cancelled := s.cancelled || (c.abortable && aborted));
    SameJobsValid(c, s, t);
  }

  /** Cancellation skips what is still pending (line 786). */
  method SkipPending(c: Context, s: State, ghost log: seq<Ended>) returns (t: State)
    requires Valid(c, s) && s.cancelled && Recorded(c, s, log)
    ensures Valid(c, t) && t.pending == [] && t.active == s.active && t.cancelled == s.cancelled
    ensures Recorded(c, t, log) && Listed(t.skipped, Cancelled) == Listed(s.skipped, Cancelled) + s.pending
  {
    hide Valid, Recorded, Listed;
    t := s;
    while |t.pending| > 0
      invariant Valid(c, t) && t.active == s.active && t.cancelled == s.cancelled && Recorded(c, t, log)
      invariant Listed(t.skipped, Cancelled) + t.pending == Listed(s.skipped, Cancelled) + s.pending
      decreases |t.pending|
    {
      SkipFirstValid(c, t);
      SkipFirstRecorded(c, t, log);
      ListedAppend(t.skipped, Entry(t.pending[0], Cancelled), Cancelled);
      t := SkipFirst(t);
    }
  }

  /** The state in which `run` starts. */
  function Initial(c: Context, pool: Pool, budget: OriginBudget.Budget, nowMs: int): State {
    State(c.jobs, [], [], [], [], [], 0, false, nowMs, pool, pool.workers, budget)
  }

  lemma InitialValid(c: Context, pool: Pool, budget: OriginBudget.Budget, nowMs: int)
    requires ValidContext(c) && Consistent(c.z, c.catalog, pool) && (c.alone ==> pool.workers == map[])
    ensures Valid(c, Initial(c, pool, budget, nowMs))
  {
  }

  /** `run`, up to its end or to a given number of cooldown waits. When it ends, every job has settled
      exactly once and only the reservations of others are left,
      whatever they reserved and released meanwhile. Whatever the number of waits, the
      iterations that do not wait are at most as many as the jobs. The lists of the answer are what
      became of the tasks: `log` holds the ends of all executors in order, and `Recorded` says that the
      completed, the failed and the conflicting jobs are those that ended so. In direct mode, alone on the
      scheduler and with a clock that stands still between awaits, no job is given up for capacity. */
  method RunJobs(c: Context, pool: Pool, budget: OriginBudget.Budget, startMs: int, waits: nat)
    returns (t: State, finished: bool, ghost iterations: nat, ghost waitsTaken: nat, ghost log: seq<Ended>)
    requires ValidContext(c) && Consistent(c.z, c.catalog, pool) && (c.alone ==> pool.workers == map[])
    ensures Valid(c, t)
    ensures finished ==>
      && multiset(c.jobs) == JobsOf(t.completed) + JobsOf(t.failed) + JobsOf(t.skipped) + JobsOf(t.blocked)
      && t.pool.workers == t.foreign
    ensures Explained(c, t) && Recorded(c, t, log)
    ensures !finished ==> waitsTaken == waits
    ensures iterations <= |c.jobs| + waitsTaken && waitsTaken <= waits
    ensures StillAndAlone(c) ==> NeverGaveUp(t)
  {
    hide Valid, Consistent, Recorded, SameEnds;
    t, log := Initial(c, pool, budget, startMs), [];
    InitialValid(c, pool, budget, startMs);
    NothingRecorded(c, t);
    iterations, waitsTaken, finished := 0, 0, true;
    var waitsLeft: nat := waits;
    while |t.pending| > 0 || |t.active| > 0
      invariant Valid(c, t) && Recorded(c, t, log) && waitsLeft + waitsTaken == waits
      invariant iterations + |t.pending| + |t.active| <= |c.jobs| + waitsTaken
      decreases waitsLeft, |t.pending| + |t.active|
    {
      iterations := iterations + 1;
      ghost var before := t;
      var aborted: bool := *;
      t := CheckSignal(c, t, aborted);
      SameRecorded(c, before, t, log);
      ghost var rounds := [];
      if t.cancelled {
        t := SkipPending(c, t, log);
      } else {
        t, rounds, log := Schedule(c, t, log);
      }
      if |t.active| > 0 {
        t, log := AwaitRace(c, t, log);
      } else if |t.pending| > 0 && !t.cancelled {
        if waitsLeft == 0 {
          ValidParts(c, t);
          return t, false, iterations - 1, waitsTaken, log;
        }
        var clock := ReadClocks(c, t.nowMs, 2 * |t.pending| + 1);
        var waited;
        t, waited := WaitOrGiveUp(c, t, rounds[|rounds| - 1].looks, clock, log);
        if waited {
          waitsLeft, waitsTaken := waitsLeft - 1, waitsTaken + 1;
        }
      }
    }
    ValidParts(c, t);
    NoTasksNoWorkers(c, t);
  }
}
