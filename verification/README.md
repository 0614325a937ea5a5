# Verification of the offline web archive core

This project models the parts of the offline web archive whose correctness is hardest to see by reading, and
proves what their code and documentation promise of them. Each module follows one component of the repository:

| area | modules | what is modelled |
|---|---|---|
| worker pool | `Proxies`, `PoolConfiguration`, `WeightedRoundRobin`, `CircuitBreaker`, `WorkerPool`, `PoolScheduler`, `PoolSelection`, `PoolInvariants`, `PoolGrants`, `PoolFairness`, `PoolCounts`, `PoolProbes`, `PoolOverrun`, `PoolRun` | proxy selection, half-open circuit breaker, reservations, the `run` loop |
| request budget | `OriginBudget`, `OriginCooldowns`, `RateLimitPersistence` | token bucket, in-flight limit and cooldown of each origin; saving and restoring cooldowns |
| assets | `AssetDownload`, `DownloadSafety`, `DownloadProgress`, `AssetClaims`, `ClaimEffects`, `ContentStore`, `ContentProgress` | resumable download, source rows with leases and fencing, the content-addressed store |
| references | `Scanner`, `Splice`, `SplicedText`, `HtmlTokens`, `HtmlTermination`, `HtmlRoundTrip`, `HtmlPages`, `HtmlRewrite`, `HtmlValues`, `HtmlSplice`, `HtmlPreserved`, `HtmlDocument`, `HtmlMeaning`, `HtmlReferences`, `HtmlLetterCase`, `CssRewrite`, `CssRoundTrip`, `CssMeaning`, `MappingIndex` | HTML and CSS tokenizers, span replacement, what a rewritten page or sheet reads as, the URL index |
| site map | `RouteMap`, `LocalRuntime` | route collisions and the local request resolver |
| formats | `ZipArchive`, `ZipRoundTrip`, `ReplayKey`, `ReplayIdentity`, `CsvImport`, `Sorting`, `Slices`, `Maps`, `Octets`, `Options` | ZIP central directory, canonical replay key, CSV splitter; shared definitions |

Code that changes state is a class or a method with loops, proved against a specification function of the same
state; the properties are then lemmas about that function over every step and every run. `dafny verify dfyconfig.toml`
checks the whole project.

## How the system is read

- Every stretch of code without an `await` is one atomic step. Between two steps other workers, the clock, a crash
  or an abort may intervene in any way the component's environment allows.
- The scheduler's proxy list is fixed during a run and its identifiers are distinct (`FromCatalog`, `DistinctIds`);
  other runs may reserve and release on the same scheduler at every `await`; the clock does not go backwards
  (`ClockMonotone`); worker identifiers are not reused (`workerId !in workers`,
  which `run` guarantees by its sequence number).
- Tokens are counted in thousandths. With a millisecond clock and an integer rate the refill is exact, so
  `LevelAt` and the bound on grants hold without rounding.
- A download is a machine over the row and the partial files (`AssetDownload.Next`), whose steps are the durable ones
  of the code: claim, copy, answer, piece of a chunk, saved progress. The methods make its steps under any server and
  any claims; a crash may come between any two, one between an answer and the cut it leads to counting as one before
  the answer. The theorems of `DownloadSafety` name the server they are about: a sequence of versions, a validator
  belonging to one of them, a success being 200 with the whole content or 206 with its validator, either declaring its
  full length (`Honest`). `UnmarkedAnswersAreAppended` shows why they need it.
- Where a method may be interrupted at any point, a constant says whether that can happen (`calm`, in
  `AssetDownload.Download` and `ContentStore.Store`); if it cannot, the contract says exactly how the method ends.
- The database is transactional, and its unique indexes make the active lease of a job and the content row of a
  digest the entries of maps. One worker writes one partial file.
- SHA-256, URL parsing, letter case, Unicode folding, UTF-8 decoding, path validation and reference mapping are
  arbitrary functions; a law they need is a hypothesis of the lemma that needs it (`PrintsInjectively`, on places that
  parsed URLs have; `LowersCharwise`, on the page and its output).

## Where the code stops short

These are properties of the code as it is, each with its exact condition:

- With nothing active, `run` waits when the first pending job whose cooldown is live at the search's reading for it
  has one that is still live at the next reading, and blocks every pending job otherwise (`PoolRun.WaitOrGiveUp`). In
  direct mode, alone on the scheduler, all pending jobs are therefore given up with `CAPACITY_EXHAUSTED`, although
  waiting would help, exactly when the cooldowns up to some job end one after another under the readings
  (`PoolRun.GivenUpExactlyWhenExpiring`): a job can be given up while its own cooldown is live at every reading
  (`PoolRun.GivenUpWithALiveCooldown`), and kept after its own has ended (`PoolRun.KeptByAnother`). It never happens
  while the clock stands still within an iteration (`PoolRun.RunJobs`).
- More half-open probes can be alive than `halfOpenMaxProbes` (`PoolProbes.SecondLiveProbe`). The counter stops
  counting every live probe exactly when another reservation of the proxy completes, or its proxy fails, while the
  circuit is half-open and every counted probe is alive (`PoolProbes.NextCountedExactly`); over every run without such
  a release the live probes are within the maximum (`PoolProbes.ProbesWithinMaximum`), and no circuit ever stays
  wedged. After such a release, and only then, the pool can go on to more live probes than the maximum, wherever
  proxy, origin and pool have room for the probes that are missing (`PoolOverrun.MoveAllowsOverrunExactly`).
- A job that crashed holding a source cannot take it back under its own new lease
  (`AssetClaims.OwnOldClaimBlocksTheJob`), and a source confirmed to its holder is not checked against the lease
  (`AssetClaims.BeginWithoutLease`); `AssetClaims.RecoveryIsRefused` is one run with both.
- The path of a source description does not name the run, so the same asset is refused in a second run of a project
  (`AssetClaims.OneRunRegistersAnAsset`; a run: `AssetClaims.SecondRunIsRefused`).
- A content lock is lost for good exactly by a crash while it is held, a lock file that is created but not written or
  synced, or a release that does not unlink it (`ContentStore.OrphanedExactlyWhenLost`); a digest that is not recorded
  can still be recorded exactly when its lock is not lost (`ContentStore.RecordableExactlyWhenNotOrphaned`).
- A download that returns to a partial path it has left can be completed to bytes of no version
  (`DownloadSafety.ReusedPathMixesVersions`). A claim is safe, no continuation with an honest server and no other
  return to a path hashing anything but the version served, exactly when it stays on its path, or takes an unused one,
  or a file that is shorter than the resume offset or starts with the version the row describes, or that version is no
  longer served or too long to be stored (`SafeClaim`, `DownloadSafety.ClaimIsSafeExactly`). For the one attempt under
  the claim a file that is longer than the row expects is safe too, since it is emptied
  (`DownloadSafety.OneAttemptIsSafeExactly`); a crash that cuts a copy of it short undoes that.
- The tokenizer never ends exactly on a text in which it comes to a start tag that runs to the end of the text and ends
  there inside an attribute name that began before the last character (`HtmlTermination.TokenizerDivergesExactly`).
- A new value is read back in its attribute always between double quotes; between single quotes exactly when it holds
  no apostrophe; bare exactly when it holds no space and does not begin with an apostrophe, and is not empty unless a
  `>` follows (`HtmlValues.NewValueReadBack`). Its tag ends where it did exactly when the scan for the end is inside
  double quotes there, or the value holds an even number of apostrophes (`HtmlValues.EscapedKeepsTagEnd`).
- The closing tag of a script or style is looked for in the lower-cased text, and reading goes on at that position of
  the text itself. Where no character up to the end of the opening tag gets longer in lower case, the closing tag is
  found where it is exactly when no character of the content does (`HtmlLetterCase.CloseFoundExactly`); otherwise
  reading goes on as much too far as the content gets longer (`HtmlLetterCase.GoesOnPastTheClose`), and can pass over
  a tag (`HtmlLetterCase.LinkIsLost`).
- A rewritten style sheet, scanned again, has the references of the sheet with the new values exactly when every new
  value can stand where it is put: a quoted one holds no quote of its kind; a bare one holds no space and no closing
  parenthesis, does not begin with a quote, nor with the letter u after `@import`, and is not empty before a space
  (`CssMeaning.RewrittenReadsExactly`). `escapeCssUrl` escapes neither quotes nor spaces, and the scanner does not
  read a backslash as an escape, so what is read back is the escaped value (`CssMeaning.QuoteIsLost` is a sheet that
  loses one).
- The resource of a colliding entry is served exactly when an entry that does not collide leads to it
  (`LocalRuntime.BlockedResourceServedExactly`); such an entry shares the resource only within one page, or among
  single-page entries and entries with a fallback (`LocalRuntime.HarmlessSharing`). `LocalRuntime.BlockedButServed` is
  a map on which it happens.

## Model

| member | source | states |
|---|---|---|
| WeightedRoundRobin.WinnerIsPreferred | packages/archive-core/src/scheduler.ts:617-633 | no candidate is preferred (by score, then by identifier) to the one the scan ends with |
| WeightedRoundRobin.NextLeader | packages/archive-core/src/scheduler.ts:622-630 | raising the next candidate replaces the leader exactly when it has the higher score, or the same and the smaller identifier |
| WeightedRoundRobin.SelectionConservesSum | packages/archive-core/src/scheduler.ts:617-633 | one selection leaves the sum of all scores unchanged |
| WeightedRoundRobin.ScoresAlwaysSumToZero | packages/archive-core/src/scheduler.ts:617-633 | the scores of all proxies sum to zero after any history, whatever candidates each call offers |
| WeightedRoundRobin.ScoreIsDrift | packages/archive-core/src/scheduler.ts:617-633 | after k calls a score is exactly k times the weight minus the total weight times the picks |
| WeightedRoundRobin.CallNeverFarBehind | packages/archive-core/src/scheduler.ts:617-633 | a call keeps every score strictly above minus the total weight |
| WeightedRoundRobin.DriftBound | packages/archive-core/src/scheduler.ts:617-633 | k*weight - W*picks lies strictly above -W and at most (n-1)*(W-1), for every proxy and every k |
| WeightedRoundRobin.ExactFairness | packages/archive-core/src/scheduler.ts:617-633 | W selections from zero scores pick each proxy exactly `weight` times, and every score is zero again |
| WeightedRoundRobin.RunIsPeriodic | packages/archive-core/src/scheduler.ts:617-633 | scores and picks repeat with period W |
| WeightedRoundRobin.EveryWindowIsFair | packages/archive-core/src/scheduler.ts:617-633 | any W consecutive selections, wherever they start, pick each proxy exactly `weight` times |
| CircuitBreaker.ProxyCircuitBreaker.CanSchedule | packages/archive-core/src/scheduler.ts:375-378 | answers whether the circuit admits work at this time, moving an expired open circuit to half-open |
| CircuitBreaker.ProxyCircuitBreaker.BeginProbe | packages/archive-core/src/scheduler.ts:380-387 | succeeds exactly when the circuit admits work, and counts a probe when it is half-open |
| CircuitBreaker.ProxyCircuitBreaker.RecordSuccess | packages/archive-core/src/scheduler.ts:389-394 | closes the circuit and clears its counters |
| CircuitBreaker.ProxyCircuitBreaker.RecordFailure | packages/archive-core/src/scheduler.ts:396-409 | reopens a half-open circuit, and opens a closed one at the failure threshold |
| CircuitBreaker.ProxyCircuitBreaker.CancelProbe | packages/archive-core/src/scheduler.ts:417-419 | takes back one counted probe and nothing else |
| CircuitBreaker.BeginProbeAccounted | packages/archive-core/src/scheduler.ts:375-387 | beginning a probe keeps the counter at most the maximum minus one plus the live half-open reservations |
| CircuitBreaker.SettleAccounted | packages/archive-core/src/scheduler.ts:389-419 | so does every way a reservation ends |
| CircuitBreaker.NotWedged | packages/archive-core/src/scheduler.ts:375-387 | without a live probe the circuit admits work exactly when the clock does not hold it open |
| CircuitBreaker.AdmittedStaysAdmitted | packages/archive-core/src/scheduler.ts:375-387 | a circuit admitted at one reading is admitted, unchanged, at any other |
| CircuitBreaker.ProbeStaysCounted | packages/archive-core/src/scheduler.ts:375-387 | while the counter counts every live half-open reservation, an admitted probe keeps it so, within the maximum |
| CircuitBreaker.SettleStaysCountedExactly | packages/archive-core/src/scheduler.ts:389-419 | an outcome keeps it so exactly unless a reservation that is no probe completes or proxy-fails in a half-open circuit whose counted probes are all alive |
| CircuitBreaker.OpensAtTheThreshold | packages/archive-core/src/scheduler.ts:396-410 | consecutive failures are counted, and as many as the threshold open the circuit until the configured time after the last one |
| CircuitBreaker.RefusesExactly | packages/archive-core/src/scheduler.ts:375-410 | after any failures in a row a circuit refuses work exactly when they reach the threshold and the open time is not over; a success makes it as new |
| PoolCounts.JobsAreCounted | packages/archive-core/src/scheduler.ts:670-719 | over every run, a proxy's counters are the numbers of its jobs that ended completed and otherwise, and with its live reservations they add up to all the reservations it was given |
| PoolProbes.NextCountedExactly | packages/archive-core/src/scheduler.ts:670-719 | a reservation or release keeps every live probe of a proxy counted exactly when it is not such a release |
| PoolProbes.ProbesWithinMaximum | packages/archive-core/src/scheduler.ts:375-419 | over every run without such a release, at most `halfOpenMaxProbes` half-open reservations of the proxy are alive |
| PoolProbes.StrayCompletion | packages/archive-core/src/scheduler.ts:389-394 | in a run of reservations and releases with a maximum of one, a completion that takes a live probe off the counter |
| PoolProbes.SecondLiveProbe | packages/archive-core/src/scheduler.ts:396-419 | after that run two half-open reservations are alive |
| PoolOverrun.OverrunExactlyWhenNotCounted | packages/archive-core/src/scheduler.ts:375-419 | in every consistent pool with room for the missing probes, some continuation without further stray releases has more than `halfOpenMaxProbes` live probes exactly when a live one is not on the counter |
| PoolOverrun.MoveAllowsOverrunExactly | packages/archive-core/src/scheduler.ts:670-719 | a reservation or release opens such a continuation exactly when it is a stray release |
| PoolOverrun.RunGoesPastTheMaximum | packages/archive-core/src/scheduler.ts:375-419 | every run that leaves a live probe uncounted goes on, from any time on, to more live probes than the maximum |
| WorkerPool.CandidateIsUsable | packages/archive-core/src/scheduler.ts:605-615 | every candidate is an offered proxy that passed every filter |
| PoolSelection.SortIsSorted | packages/archive-core/src/scheduler.ts:605-615 | the sort orders proxies by priority and identifier |
| PoolSelection.CandidatesLead | packages/archive-core/src/scheduler.ts:605-615 | the candidates are exactly the usable proxies of the leading priority |
| PoolSelection.LeastLoadedPick | packages/archive-core/src/scheduler.ts:635-643 | the least-loaded policy picks a candidate whose active workers are the smallest share of its capacity |
| PoolSelection.SelectFromScores | packages/archive-core/src/scheduler.ts:645-668 | a selection under any policy leaves the sum of scores unchanged |
| PoolSelection.RunScoresSumToZero | packages/archive-core/src/scheduler.ts:595-719 | over every run of reservations and releases the scores of all proxies sum to zero |
| PoolFairness.SelectionIsACall | packages/archive-core/src/scheduler.ts:617-668 | under the weighted policies a selection for a job without a proxy is one call of the round robin on the scores of the pool |
| PoolFairness.ReservationsAreFair | packages/archive-core/src/scheduler.ts:617-691 | as many consecutive reservations as the total weight of the candidates, whatever is released between them, reserve each proxy exactly as often as its weight |
| PoolScheduler.WorkerPoolScheduler.EligibleProxies | packages/archive-core/src/scheduler.ts:605-615 | returns the candidates of the specification, having created and ticked exactly the states it looked at |
| PoolScheduler.WorkerPoolScheduler.SelectWeighted | packages/archive-core/src/scheduler.ts:617-633 | the in-place loop makes the selection of the specification and leaves its scores |
| PoolScheduler.WorkerPoolScheduler.SelectLeastLoaded | packages/archive-core/src/scheduler.ts:635-643 | returns the first candidate no other is lighter than |
| PoolScheduler.WorkerPoolScheduler.SelectProxy | packages/archive-core/src/scheduler.ts:645-668 | selects and begins a probe as specified, or selects nothing |
| PoolScheduler.WorkerPoolScheduler.TryReserveWorker | packages/archive-core/src/scheduler.ts:670-691 | the new state and the answer are those of the specification: refusal, exception or reservation; a granted job is on a proxy that can serve it, its own if it is bound, and the pool has one more worker |
| PoolScheduler.WorkerPoolScheduler.ReleaseWorker | packages/archive-core/src/scheduler.ts:693-719 | the new state is that of the specification; an unknown worker changes nothing |
| PoolScheduler.WorkerPoolScheduler.SettleProxy | packages/archive-core/src/scheduler.ts:703-714 | the proxy's load, counts and circuit after an outcome, and no other proxy |
| PoolInvariants.SelectsWhenUsable | packages/archive-core/src/scheduler.ts:605-668 | a proxy is selected exactly when one is usable; `beginProbe` never refuses a proxy admitted in the same call |
| PoolInvariants.NextKeepsConsistent | packages/archive-core/src/scheduler.ts:670-719 | every reservation and release keeps loads, capacities, the global limit and the probe accounting |
| PoolInvariants.LoadsAreLiveReservations | packages/archive-core/src/scheduler.ts:670-719 | in every reachable state page counts and `activeWorkers` are the numbers of live reservations, within capacity, and the total is within the global limit |
| PoolInvariants.NoWedgedCircuit | packages/archive-core/src/scheduler.ts:375-419 | in every reachable state a proxy without a live probe is schedulable exactly when its open time has passed |
| PoolInvariants.ReleaseNeverClamps | packages/archive-core/src/scheduler.ts:703-719 | the clamps and defaults of a release never fire for a live reservation |
| PoolGrants.GrantedExactlyWhen | packages/archive-core/src/scheduler.ts:605-691 | exactly when a reservation is granted or throws, by the fields of the job, the proxies and the pool; a granted one is on a proxy that can serve the job, of the best priority, and adds one worker to its origin and proxy; anything else moves no load |
| PoolGrants.TurnedDownExactly | packages/archive-core/src/scheduler.ts:605-691 | exactly when a job is turned down: the pool, its origin or every proxy it may use is full or unusable, or its origin is paused; and that changes no load and moves expired open circuits at most |
| PoolGrants.BindingsAreKept | packages/archive-core/src/scheduler.ts:645-657 | a reservation of a job bound to a proxy, by its session or else by itself, is on that proxy, and in direct mode there is none |
| PoolGrants.EligibleExactly | packages/archive-core/src/proxy.ts:472-479 | a proxy is eligible exactly when its metadata is in order, it is on, healthy and not cooling down, and its credential is at hand |
| PoolRun.DirectRefusalMeansPaused | packages/archive-core/src/scheduler.ts:670-678 | with nothing reserved, direct mode refuses a job only because its origin is paused |
| PoolRun.GivenUpExactlyWhenExpiring | packages/archive-core/src/scheduler.ts:815-823 | direct mode refuses all pending jobs and then gives them up exactly when the cooldowns up to some job end between its refusal and its search, and the next one's, if any, between its search and the next reading |
| PoolRun.GivenUpWithALiveCooldown | packages/archive-core/src/scheduler.ts:816-821 | readings at which a job is given up with its own cooldown live throughout |
| PoolRun.KeptByAnother | packages/archive-core/src/scheduler.ts:816-817 | readings at which a job whose cooldown has ended is kept because another one cools |
| PoolRun.AwaitRace | packages/archive-core/src/scheduler.ts:763-782 | any tasks settle in any order among any moves of others on the scheduler, the invariant holds, `active` has shrunk, and every end is recorded |
| PoolRun.End | packages/archive-core/src/scheduler.ts:763-775 | the way the executor of a task ended is recorded, and decides the list of its job, the cancellation of the run and the circuit of its proxy |
| PoolRun.ForeignValid | packages/archive-core/src/scheduler.ts:670-719 | a reservation or release by somebody else keeps the run's invariant: its own reservations stay held by its unsettled tasks |
| PoolRun.Attempt | packages/archive-core/src/scheduler.ts:790-811 | one pass starts the job, blocks it with an error of the reservation, or leaves it pending because it could not be served |
| PoolRun.TryInOrder | packages/archive-core/src/scheduler.ts:790-811 | one turn of the loop takes out the first pending job that is not turned down; it takes out none exactly when all are turned down |
| PoolRun.Schedule | packages/archive-core/src/scheduler.ts:788-812 | the loop starts or blocks the jobs in the order in which they are pending, except for those turned down; it ends with nothing pending, all places taken, or every pending job turned down with the loads there are |
| PoolRun.StartTask | packages/archive-core/src/scheduler.ts:755-782 | a started job is held by its unsettled task until it settles, at once or later, and its end is recorded |
| PoolRun.TakeSnapshots | packages/archive-core/src/scheduler.ts:816 | each snapshot shows a cooldown as live from then on exactly as the budget does |
| PoolRun.DirectTurnsDownPaused | packages/archive-core/src/scheduler.ts:670-678 | in direct mode, alone and with nothing active, every job that was turned down had a live cooldown at the reading for it |
| PoolRun.FindCooldown | packages/archive-core/src/scheduler.ts:816-817 | finds a cooldown exactly when the first one that is live at its reading is still live at the next reading |
| PoolRun.WaitOrGiveUp | packages/archive-core/src/scheduler.ts:815-823 | waits with the jobs untouched exactly when the first live cooldown of the pending jobs is still live at the next reading of the clock, and blocks all of them otherwise |
| PoolRun.SkipPending | packages/archive-core/src/scheduler.ts:785-786 | cancellation skips every pending job |
| PoolRun.RunJobs | packages/archive-core/src/scheduler.ts:743-826 | every job settles exactly once; the completed, the failed and the conflicting jobs are, in order, those whose executors ended so; each end moves the circuit of its proxy as it should; every task ran on the proxy its job is bound to; only reservations of others are left; at most one iteration per job does not wait for a cooldown; and direct mode alone with a still clock never gives up for capacity |
| OriginBudget.NoWaitMeansAdmitted | packages/archive-core/src/scheduler.ts:279-294 | the computed wait is not positive exactly when a permit may be granted |
| OriginBudget.InMemoryOriginNetworkBudget.TryAcquire | packages/archive-core/src/scheduler.ts:286-296 | one attempt refills, and takes a token and a place exactly when both and no cooldown allow it; otherwise it gives the time to sleep |
| OriginBudget.InMemoryOriginNetworkBudget.ReleasePermit | packages/archive-core/src/scheduler.ts:297-299 | gives the place back once per permit |
| OriginBudget.InMemoryOriginNetworkBudget.IsPaused | packages/archive-core/src/scheduler.ts:304-307 | answers whether a cooldown is live |
| OriginBudget.InMemoryOriginNetworkBudget.RecordResponse | packages/archive-core/src/scheduler.ts:309-328 | observes a response and looks at the bucket, or refuses an invalid status with nothing changed |
| OriginBudget.InMemoryOriginNetworkBudget.RestoreCooldown | packages/archive-core/src/scheduler.ts:330-336 | sets the cooldown and last status of one origin |
| OriginBudget.InMemoryOriginNetworkBudget.TakeSnapshot | packages/archive-core/src/scheduler.ts:338-344 | refills and clears an expired cooldown |
| OriginBudget.ResponseCooldown | packages/archive-core/src/scheduler.ts:309-328 | a response never shortens a live cooldown, never sets one past now plus the maximum, and touches none unless its status limits the rate |
| OriginCooldowns.ResponsePausesExactly | packages/archive-core/src/scheduler.ts:217-230 | after a response an origin is paused at a later time exactly when it was before or the time the response asks for is not over: seconds or a date of a respected Retry-After, the fallback, or the delay of a 503, each within its maximum |
| OriginCooldowns.SecondsPause | packages/archive-core/src/scheduler.ts:217-224 | a respected 429 of n seconds pauses for 1000 times n milliseconds, within both maxima |
| OriginCooldowns.PausedExactly | packages/archive-core/src/scheduler.ts:309-328 | over every run an origin that is not restored is paused exactly when a response recorded so far asked for a pause that is not over |
| OriginCooldowns.AdmittedExactly | packages/archive-core/src/scheduler.ts:272-286 | an origin with a place left admits a request exactly when its cooldown is over and the tokens that came in at the rate make up a whole one |
| OriginCooldowns.SleepIsExact | packages/archive-core/src/scheduler.ts:281-303 | the time `acquire` sleeps for a cooldown or for tokens is exactly the time until it can be admitted, down to the least sleep |
| OriginCooldowns.FirstRequestIsGranted | packages/archive-core/src/scheduler.ts:263-296 | the first request of an origin is granted from a full bucket |
| OriginCooldowns.TokensAddUp | packages/archive-core/src/scheduler.ts:272-279 | over every part of a run in which the bucket does not run over, grants and level are paid for by the level before and the refills at the configured rate |
| OriginBudget.InflightIsUnreleased | packages/archive-core/src/scheduler.ts:286-302 | in every reachable state `inflight` is the number of unreleased permits and within its maximum |
| OriginBudget.ReleaseNeverClamps | packages/archive-core/src/scheduler.ts:297-299 | the clamp in `release` never fires |
| OriginBudget.TokenBucketBound | packages/archive-core/src/scheduler.ts:271-302 | permits granted for an origin in any window [s, t] number at most burstLimit + rate*(t-s)/1000, whatever else happens |
| OriginBudget.NoGrantDuringCooldown | packages/archive-core/src/scheduler.ts:279-296 | no permit is granted before a cooldown ends, unless `restore` overwrites it |
| RateLimitPersistence.RateLimitJournal.RecordOriginResponse | packages/archive-core/src/scheduler.ts:562-576 | records a response and queues the save of its snapshot |
| RateLimitPersistence.RateLimitJournal.FlushStatePersistence | packages/archive-core/src/scheduler.ts:578-581 | exactly the saves queued at the call that the database accepts are applied, in order, and it succeeds exactly when all are and none failed before |
| RateLimitPersistence.RateLimitJournal.RestorePersistedOriginRateLimits | packages/archive-core/src/scheduler.ts:583-593 | restores every saved cooldown, or refuses an invalid row |
| RateLimitPersistence.NextAgrees | packages/archive-core/src/scheduler.ts:562-576 | every operation and save keeps the queue and the rows agreeing with the live cooldowns |
| RateLimitPersistence.SavesWhatLimits | packages/archive-core/src/scheduler.ts:562-576 | a response queues a save exactly when it is 429 or 503, with its status and the cooldown it leaves |
| RateLimitPersistence.HistoryAgrees | packages/persistence-sqlite/src/scheduler.ts:52-74 | so does every history of sessions and restarts |
| RateLimitPersistence.RestartPreservesPauses | packages/archive-core/src/scheduler.ts:562-593 | after a successful flush a fresh, restored budget pauses every origin at every later time exactly when the old one would |
| AssetDownload.Download.ClaimAndPrepare | packages/persistence-sqlite/src/asset-files.ts:106-141 | whatever the claim and the disk, the claim and the preparation of the partial file are steps of the machine, with the copied, created or reused file when they end; any crash is one too, in the middle of the copy or between |
| AssetDownload.Download.WriteChunk | packages/application-service/src/asset-downloader.ts:135-143 | a chunk is written piece by piece as steps of the machine; a start of it, and nothing else, is added to the file, and all of it on success |
| AssetDownload.Download.WriteBody | packages/application-service/src/asset-downloader.ts:316-342 | the write loop, its checkpoints and its end are steps of the machine, for any body and any earlier file; without an error the whole file is ready to be hashed, or too long; when nothing interrupts it, it fails exactly at the first chunk that does not fit, a broken end or a wrong length |
| AssetDownload.Download.Receive | packages/application-service/src/asset-downloader.ts:264-342 | whatever the answer, the file and the work are what the machine makes of it: the attempt ends with the failure that is the answer's, hashes, or asks again from the start |
| AssetDownload.Download.Attempt | packages/application-service/src/asset-downloader.ts:192-352 | an attempt is a run of the machine under its claim and a part of its script; when nothing interrupts it, it ends exactly as the answers of the script say |
| AssetDownload.Download.Attempts | packages/application-service/src/asset-downloader.ts:192-352 | the same for any attempts one after another, whatever crashes, failures, restarts and claims there are |
| DownloadSafety.InitialOffsetResumable | packages/archive-core/src/assets.ts:218-236 | the offset a download starts from is within the file and is backed by bytes of the version its validator names |
| DownloadSafety.PlanIsSound | packages/application-service/src/asset-downloader.ts:264-315 | an answer that is written continues the start of its own version and declares its length |
| DownloadSafety.PrefixRecoverable | packages/application-service/src/asset-downloader.ts:316-332 | a file that is a start of the version is recoverable under the row as it was saved before |
| DownloadSafety.NextKeepsSound | packages/application-service/src/asset-downloader.ts:192-352 | every step of the machine with an honest answer or a safe claim keeps row and file resumable, the written file a start of its version, and the hashed bytes that version |
| DownloadSafety.CarefulRunsAreSound | packages/application-service/src/asset-downloader.ts:192-352 | so does every run in which the server is honest and every claim is safe, wherever it is cut |
| DownloadSafety.HashedIsOneVersion | packages/application-service/src/asset-downloader.ts:192-352 | over every run of crashes, failures, restarts and claims that never return to a path they have left, hashed bytes are the content of one version that was served |
| DownloadSafety.AttemptsHashVersions | packages/application-service/src/asset-downloader.ts:192-352 | the same of what the attempts hash, for every honest scripts of the server |
| DownloadSafety.ClaimIsSafeExactly | packages/persistence-sqlite/src/asset-files.ts:109-122 | a claim is safe exactly when no continuation of it, with an honest server and no other return to a path, hashes bytes that are not the version served |
| DownloadSafety.OneAttemptIsSafeExactly | packages/application-service/src/asset-downloader.ts:195-214 | the same until the next claim, where a file longer than the row expects is emptied first |
| DownloadSafety.ReusedPathMixesVersions | packages/persistence-sqlite/src/asset-files.ts:109-110 | from an empty disk, claims that return to a path, and honest answers, after which bytes of no version are hashed |
| DownloadSafety.UnmarkedAnswersAreAppended | packages/application-service/src/asset-downloader.ts:264-315 | an answer is appended at the resumed offset exactly when it is 206 without another validator, or an unusual success |
| DownloadProgress.StartsOverOnce | packages/application-service/src/asset-downloader.ts:264-290 | a 416, or a 206 with another validator, empties the file once, keeps the row and every other file, and the same request is made from its beginning |
| DownloadProgress.StopsTheSecondTime | packages/application-service/src/asset-downloader.ts:264-290 | the second time it ends the attempt with nothing changed |
| DownloadProgress.AskingFinishes | packages/application-service/src/asset-downloader.ts:232-352 | from any sound state of an attempt, the proper answer to its request, and one more if it has to start over, end with the whole content of the version served, in whatever chunks it comes and whatever version it is, if it may be stored |
| DownloadProgress.AttemptFinishes | packages/application-service/src/asset-downloader.ts:192-352 | so does a whole attempt under a safe claim after any crashes and failures |
| DownloadProgress.ResumesExactly | packages/archive-core/src/assets.ts:218-236 | a download goes on from the saved offset exactly when the file still has the bytes, is not longer than expected and has a validator |
| DownloadProgress.OutcomeIsTheContent | packages/application-service/src/asset-downloader.ts:232-352 | from any sound state of an attempt, if the answers are proper, what the code hashes is the content of the version served |
| DownloadProgress.AttemptHashesTheContent | packages/application-service/src/asset-downloader.ts:192-352 | so does a whole attempt under a safe claim, whatever crashes and failures came before |
| DownloadProgress.ResumesAcrossClaims | packages/persistence-sqlite/src/asset-files.ts:109-122 | a claim that stays on its path or takes an unused one goes on with the same bytes under the new path, from the offset the row allows |
| DownloadProgress.RedirectsAreFollowed | packages/application-service/src/asset-downloader.ts:250-263 | up to twenty redirects change nothing but their count; one more ends the attempt |
| DownloadProgress.TooLargeIsRefused | packages/application-service/src/asset-downloader.ts:309-315 | a body declared longer than what may be stored is refused with the file and row unchanged |
| DownloadProgress.FailsExactly | packages/application-service/src/asset-downloader.ts:264-315 | by its fields, exactly when an answer ends the attempt with each failure, makes it start over, or is written, and the full length it declares |
| DownloadProgress.LossIsBounded | packages/application-service/src/asset-downloader.ts:325-331 | over every run, with any server, the bytes written since the last checkpoint are fewer than the checkpoint interval and the chunk being written; what is hashed is saved and within the maximum |
| AssetClaims.AssetRepository.AssertLease | packages/persistence-sqlite/src/assets.ts:176-192 | passes exactly for the active unexpired lease of the job's current generation, and says why otherwise |
| AssetClaims.AssetRepository.AssertClaim | packages/persistence-sqlite/src/assets.ts:193-200 | passes exactly when, besides, the source carries the holder's claim |
| AssetClaims.AssetRepository.EnsureAssetSource | packages/persistence-sqlite/src/assets.ts:210-253 | finds or registers the source of a URL in a run, and refuses conflicts, with its new state |
| AssetClaims.AssetRepository.BeginAssetDownload | packages/persistence-sqlite/src/assets.ts:260-280 | the outcome and the new rows of a claim, all invariants kept |
| AssetClaims.AssetRepository.SaveAssetProgress | packages/persistence-sqlite/src/assets.ts:286-306 | the outcome and the new row of a checkpoint |
| AssetClaims.AssetRepository.FinalizeAssetDownload | packages/persistence-sqlite/src/assets.ts:308-362 | the outcome and the new rows of a finalization, and whether the content was there already |
| AssetClaims.AssetRepository.MarkAssetInterrupted | packages/persistence-sqlite/src/assets.ts:364-375 | the outcome and the new row of an interruption |
| AssetClaims.NextKeepsConsistent | packages/persistence-sqlite/src/assets.ts:210-375 | downloading iff claimed, own partial path, completed rows agree with their content row, one source per URL and run: kept by every request |
| AssetClaims.WritesNeedTheClaim | packages/persistence-sqlite/src/assets.ts:286-375 | a checkpoint, finalization or interruption is accepted exactly for the current claim under a live lease with valid values, and a refusal changes nothing |
| ClaimEffects.SaveWrites | packages/persistence-sqlite/src/assets.ts:286-306 | an accepted checkpoint saves the offset, the expected length and the validator of its request, and writes no other column and no other row |
| ClaimEffects.BeginWrites | packages/persistence-sqlite/src/assets.ts:260-280 | an accepted claim writes its holder, its generation and its path, and leaves what was saved; a completed source or the holder's own claim stays as it is |
| ClaimEffects.FinalizeWrites | packages/persistence-sqlite/src/assets.ts:308-362 | an accepted finalization writes digest, length, path and content row, releases the claim, and adds at most the content row of its digest |
| ClaimEffects.InterruptWrites | packages/persistence-sqlite/src/assets.ts:364-375 | an accepted interruption gives the claim back and leaves what was saved |
| ClaimEffects.EnsureWrites | packages/persistence-sqlite/src/assets.ts:205-251 | a source is registered once, as it is described, with nothing claimed, saved or stored |
| ClaimEffects.BeginAcceptedExactly | packages/persistence-sqlite/src/assets.ts:260-271 | when a claim is accepted, by the columns of the source and the leases |
| ClaimEffects.LeaseRefusals | packages/persistence-sqlite/src/assets.ts:176-192 | whom a request is refused as: not the one with the lease, too late, or of another generation |
| ClaimEffects.LeaseWrites | packages/persistence-sqlite/src/recovery.ts:350-368 | taking a lease makes the generation of its job one more and gives it to whoever takes it; ending or renewing one writes no other |
| ClaimEffects.CheckpointIsDurable | packages/persistence-sqlite/src/assets.ts:286-306 | over every run an accepted checkpoint stays in the row through claims, interruptions and crashes until another checkpoint or a finalization is accepted |
| AssetClaims.ClaimedRowChangesOnlyByItsHolder | packages/persistence-sqlite/src/assets.ts:260-375 | a claimed row changes only by its holder, or by a claim while the old job has no live lease |
| AssetClaims.FreeRowChangesOnlyByAClaim | packages/persistence-sqlite/src/assets.ts:260-280 | an unclaimed row changes only by a claim under a live lease, and never when completed |
| AssetClaims.ClaimPassesOnlyWhenReleasedOrDead | packages/persistence-sqlite/src/assets.ts:260-375 | over every run, between two different claims there is a release by the holder or a take-over while its job had no live lease |
| AssetClaims.StaleWorkerNeverWritesAgain | packages/persistence-sqlite/src/assets.ts:184-189 | once a job has a later generation, no write of an earlier one is ever accepted |
| AssetClaims.CompletedIsAbsorbing | packages/persistence-sqlite/src/assets.ts:308-362 | over every run a completed source stays as it is and agrees with its content row on digest, length and path |
| AssetClaims.OwnOldClaimBlocksTheJob | packages/persistence-sqlite/src/assets.ts:266-270 | a job's claim on a source it already holds under an older lease succeeds exactly when the lease expires between two readings |
| AssetClaims.BeginWithoutLease | packages/persistence-sqlite/src/assets.ts:263-265 | without a live lease exactly the current holder is confirmed, and nothing changes |
| AssetClaims.RecoveryIsRefused | packages/persistence-sqlite/src/assets.ts:260-280 | a run from the empty database in which an ended lease's claim is confirmed, and then the job's live new lease is refused its own source |
| AssetClaims.OneRunRegistersAnAsset | packages/persistence-sqlite/src/migrations.ts:677-711 | an asset known in the project is accepted in a run exactly when that run has it already |
| AssetClaims.SecondRunIsRefused | packages/persistence-sqlite/src/assets.ts:210-253 | a run from the empty database in which a second project run is refused the asset of the first |
| ContentStore.NextKeepsSound | packages/application-service/src/asset-downloader.ts:352-385 | every step of every worker keeps objects, rows, locks and what each worker knows sound, and loses nothing |
| ContentStore.StoreStaysSound | packages/application-service/src/asset-downloader.ts:126-133 | for any interleaving with crashes and failures: objects hash to their path's digest, rows have objects of their length, and neither changes |
| ContentStore.RecordedContentIsReadable | packages/application-service/src/asset-downloader.ts:185-190 | the check of a completed asset finds the object of the recorded digest and length at every later time |
| ContentStore.OtherPhaseKept | packages/application-service/src/asset-downloader.ts:352-385 | no step of another worker invalidates what a lock holder has seen |
| ContentStore.LocksKept | packages/persistence-sqlite/src/asset-files.ts:68-102 | at most one worker holds the lock of a digest |
| ContentStore.Store.AcquireContentLock | packages/persistence-sqlite/src/asset-files.ts:68-88 | at most a hundred attempts among arbitrary steps of others; holds the lock, or has changed nothing of its own, or leaves behind a lock file nobody holds when it cannot be written; when nothing fails it gives up only before a lock file |
| ContentStore.Store.Promote | packages/persistence-sqlite/src/atomic.ts:163-189 | under the lock the destination is never found taken and the rename never replaces an object |
| ContentStore.Store.RecordContent | packages/persistence-sqlite/src/assets.ts:317-350 | the row is added or agrees, or the worker fails with the lock |
| ContentStore.Store.ReleaseLock | packages/persistence-sqlite/src/asset-files.ts:88-102 | the lock file goes, or stays with nobody holding it when it cannot be unlinked; the row and its object stay |
| ContentStore.Store.Finalize | packages/application-service/src/asset-downloader.ts:354-385 | among any steps of others, success means that row and object of the hashed digest are there and its lock file is gone; every other end leaves the store sound, and when nothing fails it is for a lock file that is there or an object of another length |
| ContentStore.OrphanedExactlyWhenLost | packages/persistence-sqlite/src/asset-files.ts:68-102 | over every run a lock is orphaned exactly when its holder crashed, its file was created but not written, or it was released without being unlinked |
| ContentStore.OrphanedLockBlocksForever | packages/persistence-sqlite/src/asset-files.ts:68-102 | after that no run ever adds an object or a row for the digest |
| ContentStore.RecordableExactlyWhenNotOrphaned | packages/application-service/src/asset-downloader.ts:352-385 | some continuation records a digest exactly when it is recorded already or its lock is not orphaned |
| ContentProgress.FinalizesExactly | packages/application-service/src/asset-downloader.ts:352-385 | what an uninterrupted finalization leaves, file by file: the row and the object, the one that was there if there was one, and neither the partial file nor the lock; or nothing changed when an object of another length has the digest |
| Splice.Apply | packages/archive-core/src/rewrite.ts:964-965 | the descending replacement loop gives the left-to-right concatenation of gaps and new values |
| Splice.SortReverses | packages/archive-core/src/rewrite.ts:965 | sorting ordered spans by descending start reverses them |
| Splice.GapsAreVerbatim | packages/archive-core/src/rewrite.ts:964-965 | every character outside the spans appears in the output, moved by the growth before it |
| Splice.ValuesAppear | packages/archive-core/src/rewrite.ts:964-965 | every new value appears whole where its span was |
| Splice.LengthGrows | packages/archive-core/src/rewrite.ts:964-965 | the output's length is the text's plus what the spans add |
| HtmlTokens.FindTagEnd | packages/archive-core/src/rewrite.ts:691-703 | the index after the first `>` outside quotes, or the end of the text |
| HtmlTokens.TagIsClosedOrLast | packages/archive-core/src/rewrite.ts:691-703 | a tag that ends before the text does ends in `>` |
| HtmlTokens.ReadAttributes | packages/archive-core/src/rewrite.ts:718-736 | the attribute loop yields the attributes of the specification, or is stuck exactly where it says |
| HtmlTokens.ParseTag | packages/archive-core/src/rewrite.ts:705-739 | name, kind and attributes of a tag |
| HtmlTokens.TokenizeHtml | packages/archive-core/src/rewrite.ts:741-765 | all tags outside comments, scripts and styles, in order |
| HtmlTokens.AttributesOrdered | packages/archive-core/src/rewrite.ts:718-736 | the value spans of a tag are inside it, in order, and apart |
| HtmlTokens.TokensAreOrdered | packages/archive-core/src/rewrite.ts:741-765 | tokens start at a `<`, are in order and disjoint, with their values inside |
| HtmlTermination.TurnMode | packages/archive-core/src/rewrite.ts:718-736 | one turn of the cursor loop agrees with the one-pass reader on whether a name is open at the end |
| HtmlTermination.DivergesExactlyInAnOpenName | packages/archive-core/src/rewrite.ts:722 | the attribute loop never ends exactly when the text ends inside a name that began before its last character |
| HtmlTermination.ClosedTagTerminates | packages/archive-core/src/rewrite.ts:705-739 | a tag whose last character cannot be part of a name is always parsed |
| HtmlTermination.TokenizerTerminates | packages/archive-core/src/rewrite.ts:741-765 | a text whose last character cannot be part of a name is always tokenized |
| HtmlTermination.TokenizerDivergesExactly | packages/archive-core/src/rewrite.ts:741-765 | a text is never tokenized exactly when the tokenizer comes to a start tag that runs to the end of the text and ends there inside an attribute name |
| HtmlTermination.UnclosedNameDiverges | packages/archive-core/src/rewrite.ts:722 | `<a bc` is never tokenized |
| HtmlRoundTrip.TokenizerInvertsPrinter | packages/archive-core/src/rewrite.ts:691-765 | tokenizing a printed tag gives one start tag with the printed attributes: with values between double or single quotes, bare, or none, and any spaces and slashes between them |
| HtmlRoundTrip.ValuesComeBack | packages/archive-core/src/rewrite.ts:728-735 | the text of each value span that is read is the printed value |
| HtmlRoundTrip.EscapedIsPrintable | packages/archive-core/src/rewrite.ts:366-368 | an escaped value between double quotes is one the tokenizer reads back |
| HtmlPages.TokenizerInvertsPages | packages/archive-core/src/rewrite.ts:741-765 | a page printed from text, comments, declarations, start tags, end tags and script or style elements, closed or not, is read as exactly its tags, each at its place and with its attributes |
| HtmlRewrite.EscapedStaysInside | packages/archive-core/src/rewrite.ts:366-368 | an escaped value holds no double quote and no angle bracket, and an apostrophe exactly when the value does |
| HtmlValues.TurnMoves | packages/archive-core/src/rewrite.ts:718-736 | what a turn of the attribute loop reads, it reads wherever its text has moved to |
| HtmlValues.NewValueReadBack | packages/archive-core/src/rewrite.ts:728-735 | for each kind of quotes, exactly which new values are read back in place of the old one |
| HtmlValues.TagEndKept | packages/archive-core/src/rewrite.ts:691-703 | a replaced part of a tag leaves its end in place exactly when it leaves the scan in the same state as the old part |
| HtmlValues.EscapedKeepsTagEnd | packages/archive-core/src/rewrite.ts:366-368 | an escaped value does so exactly inside double quotes or with an even number of apostrophes |
| HtmlSplice.AttributesReplaced | packages/archive-core/src/rewrite.ts:718-736 | with values replaced by ones that can stand there, the attribute loop reads the same attributes with the new values |
| HtmlPreserved.StillClosed | packages/archive-core/src/rewrite.ts:691-703 | a closed tag whose values are replaced by ones that keep the scan's state is closed at the place its end has moved to |
| HtmlPreserved.TagReplaced | packages/archive-core/src/rewrite.ts:705-739 | a tag with replaced values reads as the same tag with the new values |
| HtmlDocument.TokensReplaced | packages/archive-core/src/rewrite.ts:741-765 | from any place on, past comments, scripts and styles, the new text reads as the old tokens, dropped ones gone and replaced values new |
| HtmlMeaning.RewrittenReadsAsPlanned | packages/archive-core/src/rewrite.ts:918-967 | tokenizing the output of the rewriter gives the tags of the page without the first base element, with the new references, whenever these can stand where they are put |
| HtmlMeaning.QuotedPageKeepsItsTags | packages/archive-core/src/rewrite.ts:918-967 | the same for every page whose replaced references are double-quoted, whatever the new references are |
| HtmlReferences.EscapedReadsAsItself | packages/archive-core/src/rewrite.ts:366-368 | a reader that decodes the four character references reads an escaped value as it was |
| HtmlReferences.PlannedAsWanted | packages/archive-core/src/rewrite.ts:905-963 | the first base element is dropped, the base address is that of its first `href`, and every attribute of another start tag gets the escaped canonical address, source set or mapped reference that its tag and name ask for, or keeps its value |
| HtmlReferences.RefusedExactly | packages/archive-core/src/rewrite.ts:932-963 | a page is refused exactly when a reference of a start tag is empty, too long or holds a control character, or a source set is not valid |
| HtmlLetterCase.GoesOnPastTheClose | packages/archive-core/src/rewrite.ts:756-761 | after a script or style, reading goes on past its closing tag by as much as its content gets longer in lower case |
| HtmlLetterCase.CloseFoundExactly | packages/archive-core/src/rewrite.ts:756-761 | the closing tag is found where it is exactly when no character of the content gets longer |
| HtmlLetterCase.LinkIsLost | packages/archive-core/src/rewrite.ts:741-765 | a page with a script and a link of which only the script is read |
| HtmlRewrite.SpansOrdered | packages/archive-core/src/rewrite.ts:932-963 | the recorded spans are in bounds and disjoint, in the order of the text |
| HtmlRewrite.OnlyValuesAreReplaced | packages/archive-core/src/rewrite.ts:932-963 | every span is the value of an attribute of a start tag or the first base element |
| HtmlRewrite.CollectTag | packages/archive-core/src/rewrite.ts:941-962 | the loop over a tag's attributes collects its spans, or throws at the first invalid reference |
| HtmlRewrite.Collect | packages/archive-core/src/rewrite.ts:932-963 | the loop over the tokens collects the spans of all tags and the base element |
| HtmlRewrite.RewriteHtml | packages/archive-core/src/rewrite.ts:918-967 | the result is the splice of the collected spans, an exception, or a tokenizer that never ends |
| CssRewrite.ScanReplacement | packages/archive-core/src/rewrite.ts:969-983 | a quoted reference up to its quote, a bare one up to a space or parenthesis |
| CssRewrite.ReadTurn | packages/archive-core/src/rewrite.ts:995-1037 | one turn of the scanner over comments, strings, `url` and `@import` |
| CssRewrite.ReferencesAreOrdered | packages/archive-core/src/rewrite.ts:995-1037 | the references of a sheet are in bounds, in order and apart |
| CssRewrite.PrintedUrlIsFound | packages/archive-core/src/rewrite.ts:969-1021 | a printed `url("...")` is found as one reference with its text, whatever it holds except a double quote |
| CssRewrite.EscapeKeepsPlain | packages/archive-core/src/rewrite.ts:884-886 | escaping leaves a value alone exactly when it has no backslash and no closing parenthesis |
| CssRewrite.RewriteCss | packages/archive-core/src/rewrite.ts:985-1041 | the result is the splice of all references, or an exception when one is not valid |
| CssRewrite.UntouchedSheetIsKept | packages/archive-core/src/rewrite.ts:985-1041 | a sheet whose references stay what they are is returned as it is |
| CssRoundTrip.ScannerInvertsPrinter | packages/archive-core/src/rewrite.ts:969-1037 | a sheet printed from other text, comments, strings, `url(...)` and `@import`, quoted or bare, is scanned as exactly its references, each at its place |
| CssRoundTrip.FoundHoldValues | packages/archive-core/src/rewrite.ts:969-1037 | and each of them holds the value that was printed |
| CssMeaning.ScanReadBack | packages/archive-core/src/rewrite.ts:969-983 | one scan finds a new value put in the place of the old exactly when it ends neither early nor late there, and something else, or nothing, otherwise |
| CssMeaning.FoundReplaced | packages/archive-core/src/rewrite.ts:1007-1034 | a turn that finds `url(...)` or `@import` finds it in the new sheet with the new value exactly when that fits, and no reference in its place otherwise |
| CssMeaning.NothingFound | packages/archive-core/src/rewrite.ts:995-1037 | a turn that finds nothing does the same in the new sheet, whatever values follow |
| CssMeaning.RewrittenReadsExactly | packages/archive-core/src/rewrite.ts:985-1041 | scanned again, a rewritten sheet has the references of the sheet in their places with the new values exactly when each of these fits |
| CssMeaning.QuoteIsLost | packages/archive-core/src/rewrite.ts:884-886 | a sheet whose new value holds a double quote, which does not read back |
| MappingIndex.RewriteMappingIndex.Fill | packages/archive-core/src/rewrite.ts:517-529 | indexes every mapping by its key, or throws exactly when a URL cannot be normalized |
| MappingIndex.RewriteMappingIndex.Lookup | packages/archive-core/src/rewrite.ts:531-539 | a URL is found exactly when one mapping has its key and no other |
| MappingIndex.RewriteMappingIndex.IsAmbiguous | packages/archive-core/src/rewrite.ts:551-554 | a URL is ambiguous exactly when two mappings have its key |
| RouteMap.GroupBy | packages/archive-core/src/rewrite.ts:593-608 | the map-based pass groups the entries by key |
| RouteMap.FindCollisions | packages/archive-core/src/rewrite.ts:609-624 | the collisions are exactly the colliding groups, with the ids of their routes |
| RouteMap.GroupingRefinesPairs | packages/archive-core/src/rewrite.ts:609-623 | a group collides exactly when the pairwise definition holds of each of its entries |
| RouteMap.GenerateRouteMap | packages/archive-core/src/rewrite.ts:584-628 | the map is the sorted entries with the marked ones in the collision state |
| RouteMap.MapListsEntries | packages/archive-core/src/rewrite.ts:586-626 | the map lists every entry once, changed in nothing but the collision state, by URL and then by route identifier |
| RouteMap.CollisionStateExactly | packages/archive-core/src/rewrite.ts:625-626 | a route is in the collision state exactly when an entry with its id collides pairwise in some way |
| LocalRuntime.ResourceSet | packages/archive-core/src/runtime.ts:49-76 | a resource is served exactly when a clean route leads to it, or it is listed and no other route blocks it |
| LocalRuntime.CleanExactlyWhenHarmless | packages/archive-core/src/runtime.ts:49-76 | on a generated map a route is clean exactly when no entry with its id collides pairwise |
| LocalRuntime.BlockedResourceServedExactly | packages/archive-core/src/runtime.ts:49-76 | on a generated map the resource of a colliding entry is served exactly when an entry that does not collide leads to it |
| LocalRuntime.HarmlessSharing | packages/archive-core/src/rewrite.ts:618-623 | such an entry shares the resource only within one page, or among single-page entries and entries with a fallback |
| LocalRuntime.BlockedButServed | packages/archive-core/src/runtime.ts:49-76 | on every map generated from three given entries a colliding entry's resource is served |
| LocalRuntime.ResolveRuntimeRequest | packages/archive-core/src/runtime.ts:86-171 | each answer with its reason: the one clean route, a served file, nothing, a dispute between routes, or an invalid request |
| LocalRuntime.AnswerIsDetermined | packages/archive-core/src/runtime.ts:86-171 | what an answer has to say leaves one answer to each request |
| LocalRuntime.AnswersAreServed | packages/archive-core/src/runtime.ts:173-175 | every page document and file answered with 200 is in the list of resource paths |
| LocalRuntime.PageHasItsKeyAlone | packages/archive-core/src/runtime.ts:115-151 | on a generated map a page is answered only for the one entry that has its folded key |
| ZipArchive.FindEndOfCentralDirectory | packages/persistence-sqlite/src/archive.ts:57-63 | the backward scan of the specification |
| ZipArchive.FindIsEnd | packages/persistence-sqlite/src/archive.ts:57-63 | what is found is an end record in reach, and the last one |
| ZipArchive.CheckEntry | packages/persistence-sqlite/src/archive.ts:133-162 | why an entry is refused, with sets of names and keys for the entries before it |
| ZipArchive.ReadEntries | packages/persistence-sqlite/src/archive.ts:112-171 | the loop reads what the specification reads; no read leaves the buffer |
| ZipArchive.InspectZipArchive | packages/persistence-sqlite/src/archive.ts:87-172 | the whole reader, with its error kinds; no read leaves the buffer |
| ZipArchive.AcceptableIsAccepted | packages/persistence-sqlite/src/archive.ts:87-172 | an input whose last end record announces a legal list that tiles the directory is accepted, and yields that list |
| ZipArchive.AcceptedIsAcceptable | packages/persistence-sqlite/src/archive.ts:87-172 | every accepted input is such an input: entries tile the directory, collision keys are distinct, sizes sum within the limit |
| ZipArchive.NameExactly | packages/persistence-sqlite/src/archive.ts:63-85 | a name is read exactly when it is in ASCII or marked as UTF-8, and decodes and normalizes to it |
| ZipArchive.RefusedExactly | packages/persistence-sqlite/src/archive.ts:133-166 | an entry is refused as unsafe exactly when it is encrypted, compressed otherwise, on another disk, special, a directory, badly named or of a taken name, and as too large exactly when it is, by itself, by its ratio or with the entries before it |
| ZipRoundTrip.HeaderReads | packages/persistence-sqlite/src/archive.ts:117-135 | a header is read back, field by field, where its encoding lies |
| ZipRoundTrip.DirectoryTiles | packages/persistence-sqlite/src/archive.ts:117-170 | the encodings of a list of headers tile their directory |
| ZipRoundTrip.ReaderInvertsWriter | packages/persistence-sqlite/src/archive.ts:87-172 | the reader returns the list that was written, for every legal list, any preceding bytes and any comment without an end record |
| ReplayKey.QuoteUnique | packages/archive-core/src/network.ts:257-261 | a quoted string ends where its text says and determines the string |
| ReplayKey.ValueUnique | packages/archive-core/src/network.ts:257-261 | the text of a value ends where it says and determines the value up to key order |
| ReplayKey.SameGivesSameText | packages/archive-core/src/network.ts:257-261 | trees equal up to key order have the same text |
| ReplayKey.StableJsonIsCanonical | packages/archive-core/src/network.ts:257-261 | two trees have the same text exactly when they are equal up to key order |
| ReplayIdentity.NormalizedAlike | packages/archive-core/src/network.ts:268-283 | two URLs, each with its own ignored keys, are normalized alike exactly when places agree and the parameters each keeps agree with repetitions |
| ReplayIdentity.KeptExactly | packages/archive-core/src/network.ts:241-283 | a query parameter is kept as often as it is there unless it is one of the nine tracking parameters or one that the request ignores, in any letter case |
| ReplayIdentity.ReorderingKeepsTheUrl | packages/archive-core/src/network.ts:268-283 | reordering query parameters changes nothing, refusals included |
| ReplayIdentity.LastHeaderWins | packages/archive-core/src/network.ts:304-309 | the selected headers are the last nonempty value of each selected name |
| ReplayIdentity.SelectedExactly | packages/archive-core/src/network.ts:304-309 | a header is selected with a value exactly when it is one of three and the value is that of its last header that is not blank, trimmed and cut to 512 characters |
| ReplayIdentity.IdentifiedExactly | packages/archive-core/src/network.ts:263-315 | a request has an identity exactly when it is GET or HEAD, its scope is in order, and its URL is of the web, without credentials and without a sensitive parameter |
| ReplayIdentity.KeyIsInjective | packages/archive-core/src/network.ts:311-320 | two identities share a key exactly when project, run, revision, method, URL and selected headers agree |
| ReplayIdentity.SameKeyExactlyWhenSameRequest | packages/archive-core/src/network.ts:268-321 | the same from the requests themselves, each with its own ignored keys |
| ReplayIdentity.ReorderingKeepsTheKey | packages/archive-core/src/network.ts:268-321 | reordering query parameters never changes the key, nor whether there is one |
| Sorting.SortForgetsOrderOnly | packages/archive-core/src/network.ts:253-255 | sorting by a total order forgets the order of its input and nothing else |
| CsvImport.SplitCsv | packages/archive-core/src/proxy.ts:538-561 | the splitting loop, or the refusal of an unterminated quoted field |
| CsvImport.SplitInvertsPrint | packages/archive-core/src/proxy.ts:538-561 | splitting the print of any table, each field bare or quoted, gives its rows that have some text, under each line break and with or without a last one |
| CsvImport.TableComesBack | packages/archive-core/src/proxy.ts:538-561 | a table comes back as it was exactly when each row has a field with text |
| CsvImport.OpenQuoteIsRefused | packages/archive-core/src/proxy.ts:538-561 | a text that ends inside quotes is refused, whatever rows come before |

## Left out

- PoolRun.RunJobs: works on the pool as a value rather than on the scheduler object, so that the state at each `await` can be stated; job values, throughput statistics, timestamps and heartbeats (scheduler.ts:721-741) are not part of it.
- OriginBudget.InMemoryOriginNetworkBudget.TryAcquire: is one attempt of the `acquire` loop; the sleeping between attempts, its abort signal and the order of waiting callers are not modelled.
- OriginBudget.ResponseCooldown: takes Retry-After already parsed into seconds or a date; the text of the header (section 10.2.3 of RFC 9110) is read by a parser that is not modelled.
- AssetDownload.Download.Attempts: bytes lost by a power failure before `sync`, and two writers on one partial file, are not modelled. Redirect targets, proxy affinity, permits and recovery checkpoints appear only as points where an attempt may stop.
- DownloadSafety.HashedIsOneVersion: is about honest servers, because the code appends answers it cannot tell apart (`UnmarkedAnswersAreAppended`), and about claims that do not return to a path, because it mixes versions otherwise (`ClaimIsSafeExactly`).
- AssetDownload.Download.Receive: takes Content-Range and Content-Length as parsed values; the pattern that `parseAssetContentRange` matches is not modelled, and a header it rejects is an absent one.
- AssetClaims.NextKeepsConsistent: page relations, redirect chains, content types, status codes and the texts of timestamps are not columns of the model; `requirePageJob` checks run and job but not the revision.
- AssetClaims.AssetRepository.EnsureAssetSource: page relations are not columns of the model, and the job revision is not checked.
- AssetClaims.AssetRepository.SaveAssetProgress: the etag and the last-modified date are one validator column.
- AssetClaims.AssetRepository.FinalizeAssetDownload: status code, redirect chain, content type and times are not columns of the model.
- ContentStore.StoreStaysSound: files changed by other programs, symbolic links and directory permissions are not modelled.
- HtmlMeaning.QuotedPageKeepsItsTags: is about pages and outputs on which letter case is changed character by character; on others the end of a script may be missed (`HtmlLetterCase.CloseFoundExactly`).
- HtmlRewrite.RewriteHtml: the table of reference attributes (as JavaScript looks it up, the object prototype included), `processReference`, source sets and the base URL are functions of the context; dependency records and observations are not part of the result.
- CssRewrite.RewriteCss: `processReference` is a function of the context; dependency records are not part of the result.
- ReplayKey.StableJsonIsCanonical: strings are sequences of Unicode characters, so a lone surrogate and the UTF-16 order of keys outside the basic plane are not modelled; a number is known by its printed text.
- ZipArchive.CheckEntry: compares the compression ratio by multiplication, which agrees with the quotient for integer limits and 32-bit sizes.
- RouteMap.FindCollisions: gives a map of sets; that the source lists the collisions by kind and key, and the ids of each in order, is not stated.
- RouteMap.GenerateRouteMap: field validation of the mappings and the limit on their number are left to the caller.
- LocalRuntime.ResolveRuntimeRequest: the repeated percent-decoding of the request path is a function of the context.
- `releaseProbe` of the circuit breaker is called nowhere in the repository.
- `parseSrcset`, `createOriginalResourceMap` and the validation of imported proxies and headers would add only case lists.
- The project lock (`packages/persistence-sqlite/src/locking.ts`): read, unlink and create are not atomic, so it does not give mutual exclusion.
- The desktop application, the browser runtime, the command line, secrets and redaction: foreign calls, wrappers and patterns.
