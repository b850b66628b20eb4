# ninja-validator: a verified model

ninja-validator runs a king-of-the-hill competition between submitted agents.
Its workers share nothing but a database, a cache directory, a few in-process
locks and file locks.  This project models the parts in which those workers meet
and proves what every run of them keeps.  Scores, costs, shares and times are
reals; where the code and this model differ in any other way, it is listed under
"Left out".

Run `dafny verify dfyconfig.toml` to check everything.

## How it is organised

| file | what it models |
|---|---|
| `Common.dfy` | optional values, submissions and pools, small sequence tools |
| `RepoCache.dfy`, `RepoCacheCalls.dfy`, `CacheEviction.dfy` | the shared checkout cache: the protocol, one file operation at a time, with agents dying anywhere; what one call does in it; and one eviction pass |
| `Duel.dfy` | the stop predicates, both scoring methods, `decide`, and early stopping |
| `Arena.dfy`, `ArenaDb.dfy` | the tables; every transaction on them, as a function and as a method of a mutable database |
| `ArenaRuns.dfy` | all runs with any number of resolvers on stale snapshots and any workers |
| `ArenaDuels.dfy` | how many duels are active, who may still decide one, what one resolver adds, and the fate of a duel whose king fell |
| `DuelVerdicts.dfy` | verdicts, opening decisions and resolution rows in terms of the stored judgements |
| `ArenaScenario.dfy` | a run played out from empty tables that reaches two duels and then an orphaned one |
| `TaskHistory.dfy`, `TaskLife.dfy` | what each task transaction does to every row and the events behind every status; pool bounds, failed screens and retry delays |
| `ProxyBudget.dfy`, `ProxyAccounts.dfy` | admission, clamping and accounting of one LLM proxy with overlapping requests; its counters against what the replies report, and exactly what is admitted |
| `Router.dfy`, `RouterRuns.dfy`, `RouterChoices.dfy` | the sticky upstream router, what its runs keep, and exactly which endpoint it hands out |
| `Leases.dfy` | the lease protocol between proxies and router |
| `WorkQueue.dfy`, `WorkQueueRuns.dfy`, `WorkQueuePulls.dfy` | the task generator's queue, the queue with the workers that drive it, and what a worker is given |
| `GeneratorLoad.dfy` | the deficits the generator polls and what syncing to them achieves |
| `WeightSchedule.dfy` | when weights may be set |
| `Emission.dfy` | how the weight vector is split |
| `TokenEfficiency.dfy` | token boosts and the dashboard's second implementation of them |
| `DuelScores.dfy` | the tally's quality means and token boosts inside the runs of the arena |
| `SolverJobs.dfy`, `SolverScheduler.dfy` | the solver's two job queries and its slot scheduler |
| `TokenRotator.dfy` | the GitHub token rotator |

A component whose code changes state is a class.  Each of its methods ensures
that the new state is a function of the old one, and the theorems are lemmas
about those functions, about single steps and about whole runs.  Methods that are
one assignment (releasing an endpoint, requeueing a request, marking a token) are
verified the same way and have no row of their own below.  A run is a
sequence of states and a sequence of events; the events, their arguments, the
answers of the outside world and the interleaving are arbitrary unless the
theorem says otherwise.

## What turned out not to hold

* At most one duel is active, facing the reigning king, exactly as long as every
  opening takes effect while its king reigns and nobody is dueling
  (`ArenaDuels.OneDuelExactly`).  One resolver always does that
  (`ArenaDuels.OneResolverOneDuel`), and then no duel stalls
  (`ArenaDuels.OneResolverNeverStalls`).  Two overlapping resolvers need not: a run
  from empty tables reaches two duels of one king
  (`ArenaScenario.TwoDuelsAreReachable`).
* A duel can stall for good.  Snapshots and the judge serve the reigning king's
  duels only, so an active duel can get a new order exactly while its king reigns
  (`ArenaDuels.ServedExactlyWhileKingReigns`).  Kings never return.  Once another
  challenger is promoted, a duel of the old king can still move exactly if somebody
  had decided on it before (`ArenaDuels.OrphanMovesExactlyByOutstandingOrder`), and
  otherwise stays active and undecided for the rest of the run, with no further round
  handed to the judge (`ArenaDuels.OrphanedDuelNeverEnds`).  A round of it can still be
  judged exactly when the judge had it before the king fell
  (`ArenaDuels.JudgedLaterExactlyIfRequested`).  `ArenaScenario.AnOrphanIsReachable`
  plays out such a run; its last state still offers the stalled task to the solver.
* Even if no reply overshoots, a limit on total, prompt or completion tokens holds
  exactly when at most one request is open at a time, or the limit is too small to
  admit any (`ProxyBudget.LimitHoldsExactly`).  With `k` overlapping requests the bound is `k`
  times the limit (`ProxyBudget.SpendIsBounded`), and every limit that admits a request
  can be driven there (`ProxyBudget.SpendBoundIsReached`).
* The router is meant to keep the last enabled endpoint.  Distinct targets are not
  enough: normalizing a url takes off one suffix only, and writing the disabled file
  normalizes again, so disabling one target can disable another.  It happens with the
  configured urls `http://a/v1/v1/v1,http://a` (`RouterRuns.OddTargetEmptiesAll`) and
  with a file line `http://a/v1/v1` beside the targets `http://a` and `http://b`
  (`RouterRuns.OddLineEmptiesAll`).  The exact condition for any urls and any file is
  `RouterRuns.DisablingEmptiesExactly`, and that for recording a result
  `RouterRuns.RecordingEmptiesExactly`.  With targets that normalizing leaves alone and
  a file that reads back as written, some endpoint always stays enabled
  (`RouterRuns.RouterStaysSafe`).
* `stop` on a proxy returns its lease before its handlers are done.  A stopped
  proxy is routed again exactly when one of its handlers has published since
  (`Leases.RoutedAgainExactlyByPublishing`), and without new handlers that can
  happen exactly when some handler was between its first look and its publish at
  the stop (`Leases.StopIsFinalExactly`).
* A generator's slot counter equals its units exactly until the first unit of that
  pair is lost (`WorkQueueRuns.SlotsAreExactUntilALoss`).  A loss is what an
  exception between pulling and settling a unit causes, as in
  `src/tau/workers/task_generator/pipeline.py:165`; the leak never closes
  (`WorkQueueRuns.LeaksNeverClose`) and every later poll is short by all units ever
  lost (`WorkQueueRuns.LostUnitsAreNeverReplaced`, and in tasks and units together
  `GeneratorLoad.LoadFallsShortByLosses`).
* An epoch can see two weight updates when neither the rate limit nor a block
  exceeds the margin (`WeightSchedule.OneSetPerEpoch`, an exact condition).
* Waiting duels are not always served.  A run launches no duel job exactly as long as
  every tick has no free slot, no waiting row, or one free slot and two first rows that
  lack both solves (`SolverScheduler.DuelsStarveExactly`), as all rows do when a duel
  opens.  The exact condition for one tick while duel jobs run or cool down is
  `SolverScheduler.TickLaunchesDuelExactly`; with two free slots a fresh side is
  always served (`SolverScheduler.TwoFreeSlotsLaunchADuel`).
* The duel query's row limit can drop one last job
  (`SolverJobs.WindowLosesAtMostOne`), and the cut after exclusion can split a pair
  (`SolverJobs.PairSurvivesExactly`); both are exact conditions.
* The emission of a window below five slots adds up to one exactly when some king
  holds a slot (`Emission.AllEmissionIsSharedOut`).
* A token configured twice can be handed out right after it was rate-limited
  (`TokenRotator.MarkingCoolsTokenExactly`, an exact condition).

## Model

| member | source | states |
|---|---|---|
| `RepoCache.HandedOutTreesAreWhole` | src/tau/sandbox/repo.py:146-183 | in every interleaving with deaths and failing operations, an entry the readiness check accepts is a complete checkout from one clone, and so is every tree handed to a caller |
| `RepoCache.HeldKeyIsUndisturbed` | src/tau/sandbox/repo.py:217-235 | while an agent holds a key's lock, shared or exclusive, no step of another agent touches that key's entry, marker or clone directory |
| `RepoCache.NoDeadlock` | src/tau/sandbox/repo.py:99-126 | a busy agent can step, or waits for one that can, or waits for one that waits for one that can; no longer chain of waits exists |
| `RepoCache.HolderCanProgress` | src/tau/sandbox/repo.py:266-293 | the holder of a key's lock waits for at most a fetch slot, and the holder of that can step |
| `RepoCache.RunKeepsInv` | src/tau/sandbox/repo.py:238-305 | at every moment of every run each agent may rely on what the operations before its current one established |
| `RepoCache.LocksStayExclusive` | src/tau/sandbox/repo.py:99-113 | no step, try-locks of the eviction included, makes two agents hold conflicting locks |
| `RepoCache.StepIsFramed` | src/tau/sandbox/repo.py:157-183 | a step changes only files of keys its agent holds exclusively |
| `RepoCacheCalls.CallsMissThreeTimes` | src/tau/sandbox/repo.py:262-302 | in every run a call's attempt number is the number of its misses so far, at most two while it still tries the cache, and it clones for itself exactly after the third |
| `RepoCacheCalls.FirstPhaseEndsReady` | src/tau/sandbox/repo.py:267-287 | a call lets go of the exclusive lock for the shared one only on an entry that has its tree, its `.git` and a marker naming the commit, whatever it evicted in between |
| `RepoCacheCalls.ReadyEntriesAreNotCloned` | src/tau/sandbox/repo.py:267-286 | a call clones into the cache only while the entry is not accepted |
| `RepoCacheCalls.FetchesAreLimited` | src/tau/sandbox/repo.py:115-126 | with a positive limit no process ever fetches more clones at once than it allows, cached and uncached together |
| `RepoCacheCalls.KeysAreFullCommits` | src/tau/sandbox/repo.py:250-259 | a call works on one key from beginning to end, and its commit has forty hex digits |
| `CacheEviction.CacheDir.EvictExcessEntries` | src/tau/sandbox/repo.py:199-235 | the pass removes marker and tree of exactly the oldest evictable keys, as many as exceed the limit, and of no other |
| `CacheEviction.CacheDir.DeleteOldest` | src/tau/sandbox/repo.py:213-235 | the loop, with its running excess, its early return, and keys skipped because they are kept, locked or fail to delete, deletes exactly the first keys that are none of these |
| `CacheEviction.EvictionIsOldestFirst` | src/tau/sandbox/repo.py:192-235 | a deleted key is listed, not kept and not busy, and no deletable key with an earlier marker time stays; a missing marker counts as time zero |
| `CacheEviction.EvictionLeavesExactly` | src/tau/sandbox/repo.py:199-235 | whatever is busy and whatever the limit, the pass removes as many markers as exceed the limit, or all it may delete if those are fewer, and never a kept or busy one |
| `CacheEviction.UncontendedEvictionReachesLimit` | src/tau/sandbox/repo.py:199-235 | with nothing busy the pass ends with exactly the smaller of the number of markers and the limit, and still has the kept key if it was there |
| `CacheEviction.ByAgeSorts` | src/tau/sandbox/repo.py:192-211 | the order of the pass is a rearrangement of the listing with marker times never falling, a missing marker counting as zero |
| `Duel.StopPredicatesAreExclusive` | src/tau/duel/predicates.py:18-29 | the two stop predicates never both hold, and exactly one holds when nothing remains |
| `Duel.DecidedWhenNothingRemains` | src/tau/duel/decide.py:67-102 | once nothing remains to judge, either scoring method returns a transition |
| `Duel.DecisionStands` | src/tau/duel/decide.py:67-80 | a round-wins decision taken early is the decision after any later rounds within the target |
| `Duel.PollAgreesWithFullTally` | src/tau/duel/snapshot.py:67-70 | a poll of any prefix waits or gives the verdict of the full tally, and the full tally does not wait |
| `Duel.EarlyStopIsExact` | src/tau/duel/predicates.py:6-29 | for any order of outcomes and any polled prefixes the first decision is a win exactly if challenger rounds exceed king rounds by more than the margin on the full tally |
| `Duel.EarlyStopIsEarliest` | src/tau/duel/predicates.py:18-29 | a poll waits exactly when the rounds to come could still give either verdict |
| `Duel.WinningMovesOn` | src/tau/duel/decide.py:28-102 | a won first pool advances and a won second one promotes; a forfeit is decided exactly for a deregistered challenger |
| `ArenaDb.Database.OpenChallenge` | src/tau/db/duel_resolver.py:77-94 | inserts the challenge once, in pool one, and leaves an existing one alone |
| `ArenaDb.Database.AdvancePool` | src/tau/db/duel_resolver.py:96-119 | moves to pool two and records the pool-one win, only if the challenge is still in the pool the snapshot saw |
| `ArenaDb.Database.CloseChallenge` | src/tau/db/duel_resolver.py:121-145 | closes and records the outcome under the same guard |
| `ArenaDb.Database.Promote` | src/tau/db/duel_resolver.py:147-180 | closes, records the pool-two win and appends the king under the same guard |
| `ArenaDb.Database.UpdateStatus` | src/tau/db/duel_resolver.py:182-200 | the guarded status update and whether it applied |
| `ArenaDb.Database.RecordResolution` | src/tau/db/duel_resolver.py:202-268 | the first resolution of a challenge and pool stands |
| `ArenaDb.Database.InsertTaskCandidate` | src/tau/db/generator.py:134-183 | a candidate with the given king and pool is inserted exactly if its fingerprint and id are new, and the result says whether a row was added |
| `ArenaDb.Database.FinishQualification` | src/tau/db/solver.py:147-180 | a candidate of the reigning king becomes pending with a fresh screening row, or disqualified; anything else is left alone |
| `ArenaDb.Database.SaveDuelTaskSolution` | src/tau/db/solver.py:292-327 | the first solution of a round's side stands |
| `ArenaDb.Database.SaveJudgment` | src/tau/db/judge.py:100-141 | the first judgement stands |
| `ArenaDb.Database.SaveDecision` | src/tau/db/task_screening.py:78-162 | stale and row-less tasks change nothing; otherwise the task qualifies exactly if it passes and its pool is short, every other row is as that leaves it, and the reported outcome, reason and number of dropped tasks are what the tables show |
| `ArenaDb.Database.DecideScreen` | src/tau/db/task_screening.py:123-162 | the decision under the lock: qualified exactly for a pass into a short pool; the pass that finds or makes the pool full drops just its unfinished tasks, and the report counts them |
| `ArenaDb.Database.DisqualifySurplus` | src/tau/db/task_screening.py:236-255 | every candidate and pending task of the pool becomes disqualified, its screening settled, and their number is returned |
| `ArenaDb.Database.SaveError` | src/tau/db/task_screening.py:164-219 | stale exactly if not the reigning king's pending task with a screening row that is due; else it counts, ends the task when runs are used up, and otherwise sets the next retry; the reported runs and retry time are what the tables show |
| `TaskHistory.ScreenOutcome` | src/tau/db/task_screening.py:100-162 | a final screen of the reigning king's pending task qualifies it exactly if it passes and the pool is short, with the caller's reason unless a pass met a full pool; other rows are dropped exactly if a pass fills or finds full the pool they are unfinished in; any other screen changes nothing |
| `TaskHistory.FailureOutcome` | src/tau/db/task_screening.py:164-219 | the exact rows after a failed screen: nothing for a stale task or one not due, else one more run and either the end or the next retry |
| `TaskHistory.QualifyOutcome` | src/tau/db/solver.py:147-180 | the exact rows after qualification: pending with a fresh screening row if viable, else disqualified, and nothing for any task but a candidate of the reigning king |
| `TaskHistory.DelaysDouble` | src/tau/db/task_screening.py:186-193 | the first wait is the base and each further one twice the one before, up to the cap |
| `TaskHistory.EveryStatusHasItsCause` | src/tau/db/task_screening.py:123-200 | in every run each task's status was brought about by one event that justifies it (mined, found viable, passed while its pool was short, or dropped for one of four reasons), and it has kept it since |
| `TaskHistory.QualifiedTasksEarnedIt` | src/tau/db/task_screening.py:123-152 | a qualified task was mined, then found viable, then passed its screen with fewer than the target qualified, its king reigning at both decisions |
| `TaskHistory.FingerprintsAreUnique` | src/tau/db/generator.py:134-183 | in every run no two tasks have one fingerprint |
| `TaskHistory.FirstJudgementStands` | src/tau/db/judge.py:100-141 | what the judge first says of a round is what is stored for the rest of the run |
| `TaskHistory.FirstSolutionStands` | src/tau/db/solver.py:292-327 | the tokens of a side's first solve are what is stored for the rest of the run |
| `ArenaRuns.VerdictsMatchStatus` | src/tau/db/duel_resolver.py:96-268 | with any number of resolvers on snapshots of any age, the verdicts of every challenge match its status (none, a pool-one win, or one of five closed histories) and the kings are the founding ones and the pool-two winners |
| `ArenaRuns.VerdictsNeverConflict` | src/tau/db/duel_resolver.py:182-268 | an order that takes effect writes a verdict nobody has written, and a promotion appends exactly its challenger |
| `ArenaRuns.RoundsWithinTarget` | src/tau/db/task_screening.py:123-162 | judged rounds are qualified tasks, and a pool being dueled in holds exactly its target of them, so the tally never exceeds the target |
| `ArenaRuns.DuelsNeverStall` | src/tau/db/judge.py:31-98 | for any duel in progress `remaining` is exactly the number of unjudged qualified tasks; such a task is on the judge's list exactly when it is off the solver's and the challenged king still reigns; when none is left `decide` returns a transition |
| `ArenaRuns.ResolversAgree` | src/tau/workers/duel_resolver/pipeline.py:54-78 | two orders on the same challenge and pool of a registered challenger, decided anywhere in a run, carry the same verdict |
| `ArenaRuns.OrderAgreesWithNow` | src/tau/duel/decide.py:28-102 | an order, however late, carries the verdict that deciding on the tally of the present rounds would give |
| `ArenaRuns.RunGrows` | src/tau/db/task_screening.py:78-200 | qualified, disqualified and closed are final; verdicts, solutions, judgements and kings are never taken back or rewritten |
| `ArenaRuns.RunKeepsInv` | src/tau/db/duel_resolver.py:40-180 | all table invariants hold together with every outstanding order and judge request at every moment of every run |
| `ArenaRuns.NewOrderIsSound` | src/tau/db/duel_resolver.py:40-75 | what a snapshot and `decide` produce follows from the tally of the rounds it saw, and a challenge is opened only on full pools |
| `ArenaRuns.OrderStaysSound` | src/tau/workers/duel_resolver/pipeline.py:81-149 | an order decided on a stale snapshot stays sound while the tables move on |
| `ArenaRuns.AdmissionCounts` | src/tau/db/task_screening.py:123-145 | admitting a task adds exactly one to its own pool's qualified count and keeps every pool within its target |
| `ArenaRuns.JudgementsStayLegitimate` | src/tau/db/judge.py:31-98 | judgements exist only for qualified tasks of the challenged king with both sides solved |
| `DuelVerdicts.RoundWinsVerdictsFollowJudgements` | src/tau/db/duel_resolver.py:344-452 | however old the order of a registered challenger in a round-wins duel: listing the stored judgements of the pool in any order, and whatever the rounds still to come bring, it was won exactly if challenger wins exceed king wins by more than the margin over the whole pool |
| `DuelVerdicts.SnapshotsDecideOnceCertain` | src/tau/duel/decide.py:67-80 | a snapshot of an active duel waits exactly while the rounds still to be judged could give either verdict, paused or not |
| `DuelVerdicts.SnapshotsOpenExactly` | src/tau/duel/decide.py:28-58 | without an active duel one is opened exactly when somebody reigns, opening is not paused, both pools hold their target of qualified tasks, and a challenger waits |
| `DuelVerdicts.SnapshotsWaitExactly` | src/tau/duel/decide.py:28-58 | and otherwise waits for the first that is missing: a king, leave to open, full pools, a challenger |
| `DuelVerdicts.RoundsMoveFromSolverToJudge` | src/tau/db/judge.py:31-98 | only qualified tasks of the pool being dueled in are rounds; one is on the solver's list exactly while a side lacks its solve, and on the judge's exactly once neither does, until it is judged or its king falls |
| `DuelVerdicts.DeregisteredForfeits` | src/tau/duel/decide.py:28-58 | a snapshot closes the active duel as deregistered exactly if the challenger is not registered |
| `DuelVerdicts.TallyCountsWinners` | src/tau/db/duel_resolver.py:355-452 | wins, losses and ties are the numbers of stored judgements for the challenger, for the king and for neither |
| `DuelVerdicts.RowsTellTheirOrder` | src/tau/db/duel_resolver.py:202-268 | in every run a resolution row is that of an order decided in the run: its verdict as outcome, the winners of the rounds that order saw, and the pool's target |
| `DuelVerdicts.RowsFollowJudgements` | src/tau/db/duel_resolver.py:202-268 | so a round-wins row of a registered challenger names exactly who leads by more than the margin over the whole pool, whatever is judged later |
| `DuelVerdicts.OnlyPromotionsCrown` | src/tau/db/duel_resolver.py:147-180 | a promotion that takes effect makes its challenger the reigning king, and no other step changes the kings |
| `ArenaDuels.StepKeepsOneDuelExactly` | src/tau/db/duel_resolver.py:77-180 | a step of any resolver or worker keeps a single duel facing the reigning king exactly unless it opens a new challenge for a fallen king or while somebody is dueling |
| `ArenaDuels.OneDuelExactly` | src/tau/workers/duel_resolver/pipeline.py:54-78 | a run never leaves the single duel exactly when every opening takes effect in time |
| `ArenaDuels.OneResolverOneDuel` | src/tau/workers/duel_resolver/pipeline.py:38-78 | with one resolver, restarted anywhere, at most one challenge is active and it faces the reigning king, in every run |
| `ArenaDuels.OneResolverNeverStalls` | src/tau/workers/duel_resolver/pipeline.py:54-78 | with one resolver every snapshot picks the active duel, each unjudged task is on exactly one of the two work lists, and once none is left the tick decides |
| `ArenaDuels.ServedExactlyWhileKingReigns` | src/tau/db/duel_resolver.py:298-323 | an active duel can get a new order exactly while its king reigns, and a judge request only then |
| `ArenaDuels.OrphanedDuelNeverEnds` | src/tau/db/duel_resolver.py:40-75 | once its king is succeeded and no order on its present pool is outstanding, a duel stays as it is for the rest of the run and no further round of it is handed to the judge |
| `ArenaDuels.LateJudgementsWereRequested` | src/tau/db/judge.py:100-141 | in every run, a judgement written to such a duel later was handed to the judge before |
| `ArenaDuels.JudgedLaterExactlyIfRequested` | src/tau/db/judge.py:100-141 | from any reachable state an unjudged round of such a duel can still be judged exactly when the judge has it already |
| `ArenaDuels.OrphanMovesExactlyByOutstandingOrder` | src/tau/db/duel_resolver.py:182-200 | from any reachable state, an orphaned duel can still move exactly when an order on its present pool is outstanding |
| `ArenaDuels.KingsNeverReturn` | src/tau/db/duel_resolver.py:270-275 | a king that was succeeded never reigns again |
| `ArenaScenario.TwoDuelsAreReachable` | src/tau/workers/duel_resolver/pipeline.py:54-78 | a run from empty tables in which two overlapping ticks open two duels of the reigning king |
| `ArenaScenario.AnOrphanIsReachable` | src/tau/db/duel_resolver.py:147-180 | a run from empty tables in which promoting one challenger leaves the other in a duel that can never move |
| `TaskLife.TasksStayWithinBounds` | src/tau/db/task_screening.py:203-219 | no pool exceeds its target, every pending task has a screening row (the missing-row errors are unreachable), and no task is charged more failed screens than allowed |
| `TaskLife.FillingAPoolClearsIt` | src/tau/db/task_screening.py:123-162 | a passing decision that leaves the pool full leaves no candidate or pending task in it |
| `TaskLife.RetryDelaysGrow` | src/tau/db/task_screening.py:164-200 | waits between failed screens never shrink and never exceed the cap |
| `TaskLife.RetriesAreSpaced` | src/tau/db/task_screening.py:164-200 | in every run two failures of a task in a row that count are at least the first one's wait apart, and the waits its failures impose never shrink and never exceed the cap |
| `TaskLife.ScreeningRowMovesByFailures` | src/tau/db/task_screening.py:78-200 | while a task stays pending its failed runs never fall, and its screening row changes only by a failure that counts |
| `TaskLife.FailedScreenCounts` | src/tau/db/task_screening.py:164-200 | a due failed screen counts once and ends the task exactly when it uses up the allowed runs |
| `ProxyBudget.SpendIsBounded` | src/tau/proxy/server.py:600-820 | for each of total, prompt and completion tokens by itself: if no reply overshoots in that dimension, what is recorded plus what is still owed stays within k times its limit; with k = 1 within the limit |
| `ProxyBudget.SpendBoundIsReached` | src/tau/proxy/server.py:634-655 | for every k, each dimension and every limit that admits a request, a run of k overlapping requests with no reply overshooting records exactly k times the limit |
| `ProxyBudget.TooSmallALimitAdmitsNothing` | src/tau/proxy/server.py:688-752 | a total limit below two, or a prompt or completion limit below one, admits nothing in any run, whatever the other limits |
| `ProxyBudget.LimitHoldsExactly` | src/tau/proxy/server.py:634-655 | for each dimension by itself: spend stays within the limit in every run with at most k open requests and no reply overshooting exactly when k is at most one or the limit admits nothing |
| `ProxyAccounts.CountersAreSums` | src/tau/proxy/server.py:793-820 | in every run cost and token counters are the sums of what the answers reported, successes, errors and refusals are counted one by one, and every claimed slot belongs to an open or an answered request |
| `ProxyAccounts.ReachingALimitBlocks` | src/tau/proxy/server.py:657-677 | an answer that takes the reported cost or a token count to its limit sets a reason, and nothing is admitted for the rest of the run |
| `ProxyAccounts.AdmittedBelowLimits` | src/tau/proxy/server.py:616-655 | over a run, a request is admitted only while reported cost and tokens and claimed slots are below their limits |
| `ProxyAccounts.AdmittedExactly` | src/tau/proxy/server.py:634-752 | a request is admitted exactly if no reason is set, every counter is below its limit, the estimate fits the prompt budget, and one token of output next to it fits every limit, cost at the average price included |
| `ProxyAccounts.FirstReasonIsGiven` | src/tau/proxy/server.py:634-752 | a refusal gives the reason of the first check that fails, in the code's order |
| `ProxyAccounts.WithoutABudget` | src/tau/proxy/server.py:616-624 | without a budget only an earlier refusal stops a request, and its body is sent as it came |
| `ProxyAccounts.ClampingIsTight` | src/tau/proxy/parsing.py:230-238 | the output limit sent is the client's own if that fits every limit in force, and otherwise the largest that does; the second limit of the body is lowered the same way |
| `ProxyBudget.CountsEveryChar` | src/tau/proxy/parsing.py:206-219 | the estimate counts each character of keys, strings and numbers of a message once |
| `ProxyBudget.ToolsEveryChar` | src/tau/proxy/parsing.py:188-203 | and each character of the serialized tools |
| `ProxyBudget.RequestsAreBounded` | src/tau/proxy/server.py:679-686 | whatever the replies report and however many overlap, claimed request slots cover the open requests and never exceed the request limit |
| `ProxyBudget.BlockedStaysBlocked` | src/tau/proxy/server.py:760-791 | whatever the replies report, once a reason is set, by a limit or by any refusal, it is never cleared, nothing more is admitted and the request count never rises |
| `ProxyBudget.AdmissionFits` | src/tau/proxy/server.py:688-752 | an admitted request's estimate and output limit fit into what is left of every limited dimension at that moment |
| `ProxyBudget.ClampingOnlyLowers` | src/tau/proxy/parsing.py:230-238 | the output limit sent is at most every limit in force and is the client's own value when that is smaller, negative values included |
| `ProxyBudget.EstimatePromptTokens` | src/tau/proxy/parsing.py:188-219 | over JSON messages: at least one token, and otherwise a third of the characters rounded up plus eight per message and twenty-four per tool |
| `ProxyBudget.LongerPromptsCostMore` | src/tau/proxy/parsing.py:188-219 | adding messages anywhere in a conversation raises the estimate by at least their overhead |
| `ProxyBudget.LLMProxy.PrepareRequest` | src/tau/proxy/server.py:616-655 | the admission section: checks in order, the first reason wins, a slot is claimed exactly when admitted |
| `ProxyBudget.LLMProxy.CheckPreRequestBudget` | src/tau/proxy/server.py:657-677 | cost before total, prompt and completion tokens; a set reason stays |
| `ProxyBudget.LLMProxy.CheckRequestLimitLocked` | src/tau/proxy/server.py:679-686 | the request limit trips once the claimed slots reach it |
| `ProxyBudget.LLMProxy.CheckEstimatedBudget` | src/tau/proxy/server.py:688-716 | the estimate may use up the prompt budget but not the whole total budget |
| `ProxyBudget.LLMProxy.ClampRequestTokens` | src/tau/proxy/server.py:718-752 | the output limit is the smallest of the limits in force, a non-positive one trips the budget, and an unaffordable prompt trips the cost limit |
| `ProxyBudget.LLMProxy.RecordRequest` | src/tau/proxy/server.py:793-820 | the reply is added to every counter and the limits are checked again |
| `Router.SmartUpstreamRouter.AcquireEndpoint` | src/tau/proxy/routing.py:142-165 | expires affinities, picks the preferred or least loaded candidate and counts the lease |
| `Router.SmartUpstreamRouter.RememberAffinity` | src/tau/proxy/routing.py:235-247 | a full table first loses an entry that expires first |
| `Router.SmartUpstreamRouter.OldestAffinity` | src/tau/proxy/routing.py:235-247 | the scan returns an entry whose expiry no other precedes |
| `Router.SmartUpstreamRouter.DisableUpstream` | src/tau/proxy/routing.py:267-295 | disables unless it is the last enabled endpoint, and forgets its affinities |
| `Router.SmartUpstreamRouter.RecordUpstreamResult` | src/tau/proxy/routing.py:179-199 | a bad result cools the endpoint, the threshold disables it, a good one clears it, anything else changes nothing; which is which by status is `RouterChoices.ResultByStatus` |
| `Router.MinLoadIsLeast` | src/tau/proxy/routing.py:226-233 | the least-loaded candidates exist and are exactly those whose load no candidate undercuts |
| `RouterRuns.AcquirePicksBest` | src/tau/proxy/routing.py:142-165 | a disabled or cooling endpoint is never acquired while a better one is configured |
| `RouterChoices.ResultByStatus` | src/tau/proxy/routing.py:179-199 | a status of 500 or more, 401, 402, 403, 408 or 429, or an error without status adds one failure and cools for the cooldown times the failures, at most four; a status below 400 without error clears both; everything else, and every other endpoint, stays as it was |
| `RouterChoices.BadEndpointsRest` | src/tau/proxy/routing.py:142-199 | over runs: until that cooldown is over or another result is recorded, the endpoint is not acquired while an enabled and warm one is configured |
| `RouterChoices.AcquiredExactly` | src/tau/proxy/routing.py:142-233 | the endpoint acquired is the remembered one if it is still among the best and within the slack of each of them, and otherwise one of the best with least load; exactly the expired affinities go, the kept one is renewed, and one request is counted |
| `RouterChoices.RememberedPromptsReturn` | src/tau/proxy/routing.py:235-247 | remembering leads a prompt back to its endpoint for one lifetime, and costs at most one other entry |
| `RouterChoices.DisablingForgets` | src/tau/proxy/routing.py:267-295 | disabling an endpoint forgets exactly the prompts that led to it |
| `RouterChoices.TiesRotate` | src/tau/proxy/routing.py:226-233 | every endpoint of least load comes up within as many turns of the cursor as there are such endpoints |
| `RouterChoices.LoadsAreAcquiredLessReleased` | src/tau/proxy/routing.py:142-177 | over runs whose releases find a lease, a load is the endpoint's acquisitions less its releases |
| `RouterChoices.ReleasesFloorAtZero` | src/tau/proxy/routing.py:174-177 | a release gives one request back, and none where there is none |
| `RouterChoices.ConfiguredForms` | src/tau/openrouter/client.py:204-216 | a base with a slash, version or endpoint path appended means the base itself |
| `RouterChoices.EmptyMeansDefault` | src/tau/openrouter/client.py:204-216 | an empty base means the public endpoint |
| `RouterRuns.RouterStaysSafe` | src/tau/proxy/routing.py:142-295 | in every run on distinct normalized urls and a file that reads back as written, some endpoint stays enabled, failure counts are the bad statuses since the last good one, affinities stay within their cap, and the file stays that way |
| `RouterRuns.DisablingEmptiesExactly` | src/tau/proxy/routing.py:267-295 | for any urls and any file, disabling empties the enabled set exactly when a file is configured, the endpoint passes the last-one guard, and each other url is disabled in memory or by the rewritten file |
| `RouterRuns.DisablingEmptiesOnSettledFile` | src/tau/proxy/routing.py:38-66 | on a file that reads back as written, exactly when the guard passes and every enabled url is the one disabled or what its normalized form reads back as |
| `RouterRuns.RecordingEmptiesExactly` | src/tau/proxy/routing.py:179-199 | recording a result does so exactly when its status is a bad one, it reaches the threshold, and disabling would |
| `RouterRuns.OddTargetEmptiesAll` | src/tau/proxy/target.py:41-47 | a failing input of two distinct targets: configured `http://a/v1/v1/v1,http://a`, disabling the first leaves none enabled |
| `RouterRuns.OddLineEmptiesAll` | src/tau/proxy/routing.py:38-66 | a failing input with normalized targets: a file line two versions deep, rewritten when another endpoint is disabled, disables the last one too |
| `RouterRuns.TargetsAreDistinct` | src/tau/proxy/target.py:132-138 | a target's endpoints are distinct, and exactly the normalized forms of what is configured |
| `RouterRuns.DisabledOnlyAfterThreshold` | src/tau/proxy/routing.py:179-199 | an endpoint becomes disabled only by its own bad result, the last of at least the threshold since its last good one |
| `RouterRuns.AcquireOnlyRunsStayBalanced` | src/tau/proxy/routing.py:201-233 | from balance, acquiring over a fixed warm set keeps all loads within the slack plus one |
| `RouterRuns.RememberingStaysCapped` | src/tau/proxy/routing.py:235-247 | remembering never exceeds the affinity cap |
| `Leases.LeasesAreConserved` | src/tau/proxy/server.py:488-521 | each endpoint's counter is the number of proxies routed to it plus the threads holding an unpublished lease on it |
| `Leases.StepConserves` | src/tau/proxy/routing.py:174-177 | every step keeps that count and a release always finds a lease, so the floor at zero never bites |
| `Leases.AllReturnedExactly` | src/tau/proxy/server.py:514-521 | every counter is zero exactly when no proxy is routed and no thread holds or returns a lease |
| `Leases.StopCanComeTooEarly` | src/tau/proxy/server.py:243-249 | whenever a handler is between acquire and publish, its publish routes the stopped proxy again, before or after the stop has returned what it took, if anything |
| `Leases.OnlyPublishRoutes` | src/tau/proxy/server.py:488-512 | an unrouted proxy becomes routed only by a publish of its own handlers, and until it is stopped again exactly by one |
| `Leases.RoutedAgainExactlyByPublishing` | src/tau/proxy/server.py:488-521 | after a stop and until the next one a proxy is routed exactly when one of its handlers has published since |
| `Leases.StopIsFinalExactly` | src/tau/proxy/server.py:243-249 | without new handlers a stopped proxy can become routed again exactly when some handler had looked but not published at the stop |
| `Leases.QuietStopIsFinal` | src/tau/proxy/server.py:243-249 | a stop that finds no handler on its way leaves the proxy unrouted for as long as no handler of it starts |
| `Leases.StoppedProxiesReturnEverything` | src/tau/proxy/server.py:514-521 | once every proxy is stopped with no handler on its way, all counters are zero exactly when no thread is still returning a lease |
| `WorkQueue.TaskQueue.SyncToDeficits` | src/tau/workers/task_generator/workqueue.py:73-103 | sets the king and launches or cancels per pool up to what the poll needs; an empty poll only clears the king; the number returned is the number of requests queued |
| `WorkQueue.TaskQueue.SyncOnePool` | src/tau/workers/task_generator/workqueue.py:88-102 | launches exactly the shortfall and clears cancellations, or queues the surplus for cancellation |
| `WorkQueue.TaskQueue.NextToFetchUnit` | src/tau/workers/task_generator/workqueue.py:107-114 | drops stale and cancelled units with their slots until a wanted one is first |
| `WorkQueue.TaskQueue.NextToDescribeUnit` | src/tau/workers/task_generator/workqueue.py:150-158 | the same on the describe queue, releasing the fingerprints of dropped units |
| `WorkQueue.TaskQueue.TakeUnwanted` | src/tau/workers/task_generator/workqueue.py:187-197 | a stale unit spends no cancellation, a wanted king's unit spends one |
| `WorkQueue.TaskQueue.Reserve` | src/tau/workers/task_generator/workqueue.py:173-182 | a fingerprint is reserved exactly when no unit holds it |
| `WorkQueue.FirstIndex` | src/tau/workers/task_generator/workqueue.py:67-71 | the unit taken is one that no other precedes |
| `WorkQueuePulls.FetcherGetsFirstWanted` | src/tau/workers/task_generator/workqueue.py:107-114 | the fetcher is given the first unit whose king is current and of which no cancellation is queued; exactly the units before it leave with their slots, those of the current king for one cancellation each; it waits only on an empty queue |
| `WorkQueuePulls.DescriberGetsFirstWanted` | src/tau/workers/task_generator/workqueue.py:150-158 | the same for a describer, and exactly the fingerprints of the units that left are free again |
| `WorkQueuePulls.AskingIsPulling` | src/tau/workers/task_generator/workqueue.py:107-114 | asking for a unit is a sequence of pulls of the runs below |
| `WorkQueueRuns.WorkIsConserved` | src/tau/workers/task_generator/pipeline.py:138-238 | slots equal the units that exist wherever they are plus those ever lost, reserved fingerprints are exactly those of units past reservation, each held once, and slots less cancellations are the last poll's need less the units finished since |
| `WorkQueueRuns.SyncBalances` | src/tau/workers/task_generator/workqueue.py:73-103 | after a sync slots less cancellations equal the polled need in both pools, and every slot added is a queued unit |
| `WorkQueueRuns.FinishFreesOneSlot` | src/tau/workers/task_generator/workqueue.py:199-201 | finishing a unit that exists frees exactly its slot: the floor never bites |
| `WorkQueueRuns.DropBalances` | src/tau/workers/task_generator/workqueue.py:107-114 | dropping an unwanted unit frees its slot without moving the reigning king's target |
| `WorkQueueRuns.SlotsAreExactUntilALoss` | src/tau/workers/task_generator/pipeline.py:138-192 | in every run a counter equals its units exactly when no unit of the pair was ever lost, and never falls below them |
| `WorkQueueRuns.LeaksNeverClose` | src/tau/workers/task_generator/pipeline.py:138-192 | the surplus of a counter over its units never shrinks |
| `WorkQueueRuns.LostUnitsAreNeverReplaced` | src/tau/workers/task_generator/workqueue.py:73-103 | while a king reigns the wanted units of each pool are the last poll's need less what was finished since, less all units ever lost |
| `WorkQueueRuns.QueuesStayNumbered` | src/tau/workers/task_generator/workqueue.py:67-71 | insertion numbers grow along both queues in every run |
| `WorkQueueRuns.FetchTakesFirst` | src/tau/workers/task_generator/workqueue.py:107-114 | the fetcher always takes the first pool's earliest unit |
| `GeneratorLoad.PendingPoolDeficits` | src/tau/db/generator.py:59-125 | a bad target is an error, no king gives no deficits, and otherwise the list is that of the counted rows |
| `GeneratorLoad.CountTasks` | src/tau/db/generator.py:90-111 | the loop's dictionaries hold each pool's qualified and active totals; rows of unknown pools count nowhere |
| `GeneratorLoad.ListDeficits` | src/tau/db/generator.py:113-125 | one entry per incomplete pool whose share exceeds its active tasks, by exactly the difference |
| `GeneratorLoad.NeededIsShortfall` | src/tau/db/generator.py:113-125 | the deficit of a pool is what its active tasks fall short of its share, and zero for a complete pool |
| `GeneratorLoad.SharesAreLevel` | src/tau/db/generator.py:118-125 | the shares add up to the in-flight target and differ by at most one |
| `GeneratorLoad.LoadIsLevelAfterSync` | src/tau/workers/task_generator/workqueue.py:73-103 | after an atomic poll and sync with some deficit, active tasks plus slots less cancellations equal the larger of share and active in each incomplete pool, and a complete pool has as many cancellations as slots |
| `GeneratorLoad.LoadFallsShortByLosses` | src/tau/workers/task_generator/workqueue.py:73-103 | at every such poll of every run, active tasks plus wanted units that exist equal the larger of share and active, less every unit of the pair ever lost |
| `GeneratorLoad.TotalsAreTasks` | src/tau/db/generator.py:90-111 | the counted rows give each pool's qualified tasks, and its candidate and pending ones |
| `GeneratorLoad.TasksAndSlotsMeetTarget` | src/tau/db/generator.py:113-125 | in terms of the tables: after a poll and a sync a short pool's unfinished tasks and wanted slots are its part of the in-flight target (all of it, or the larger and the smaller half), or what is unfinished if that is more, and nothing is wanted for a pool that holds its target |
| `GeneratorLoad.NothingToGenerateExactly` | src/tau/db/generator.py:113-125 | the list is empty exactly when every short pool has its part unfinished already |
| `GeneratorLoad.InsertThenDoneKeepsLoad` | src/tau/workers/task_generator/pipeline.py:216-238 | inserting a unit's task and finishing the unit keeps active plus in flight, for every king and pool |
| `WeightSchedule.NextTryIsFirst` | src/tau/weights/schedule.py:23-38 | with one block at a time and no update, no block before the predicted one proceeds, and the predicted one does exactly when the margin is not negative |
| `WeightSchedule.ProceedIsNow` | src/tau/weights/schedule.py:32-38 | for every input, proceeding is the same as predicting the current block |
| `WeightSchedule.ProceedsExactly` | src/tau/weights/schedule.py:23-38 | weights are set exactly when the rate limit has passed since the last update and an epoch boundary lies within the margin |
| `WeightSchedule.PredictionIsStable` | src/tau/weights/schedule.py:34-38 | polling again before the predicted block does not move the prediction |
| `WeightSchedule.NegativeMarginNeverSets` | src/tau/weights/schedule.py:37-38 | a negative margin never proceeds |
| `WeightSchedule.CountdownWithin` | src/tau/weights/schedule.py:17-20 | the countdown is the exact distance to the last block of the epoch, and the block after it opens the next epoch |
| `WeightSchedule.OneSetPerEpoch` | src/tau/weights/schedule.py:23-38 | two sets in a row never share an epoch exactly when the rate limit, or one block, exceeds the margin capped by the epoch |
| `WeightSchedule.TwoSetsInOneEpoch` | src/tau/weights/schedule.py:23-38 | otherwise two blocks of one epoch where both sets go through exist |
| `WeightSchedule.EveryEpochIsServedOnce` | src/tau/weights/schedule.py:23-38 | with margin < rate limit <= epoch length no epoch sees two sets, and every epoch from the first set on sees one exactly when each set is made before the epoch of its prediction is over |
| `WeightSchedule.NextSetIsInNextEpoch` | src/tau/weights/schedule.py:23-38 | a set never comes before its prediction and lies in the very next epoch exactly when it is on time |
| `Emission.ComputeWeights` | src/tau/weights/compute.py:36-70 | no neurons and a missing burn uid are skipped, otherwise the vector lists each neuron's weight in metagraph order, and the reported king shares are those of exactly the neurons some slot pays |
| `Emission.SplitShares` | src/tau/weights/compute.py:46-58 | the loop's dictionaries hold what the slots pay each neuron, and the burn is what no live neuron claims |
| `Emission.EmissionIsConserved` | src/tau/weights/compute.py:36-70 | a submittable vector adds up to the chosen shares, no weight is negative, and the burn uid gets exactly the unclaimed shares |
| `Emission.AllEmissionIsSharedOut` | src/tau/weights/compute.py:15-33 | the chosen shares add up to one exactly when the window has five slots or some king holds one |
| `Emission.SharesAreSplit` | src/tau/weights/compute.py:50-58 | every share goes to exactly one neuron or stays unclaimed, when uids are distinct |
| `Emission.NonBurnKingsAvoidBurn` | src/tau/weights/compute.py:73-80 | no king that holds a slot maps to the burn uid |
| `Emission.SlotsFollowKings` | src/tau/weights/compute.py:73-80 | the slots belong to exactly the kings that do not map to the burn uid, in the order of the kings |
| `Emission.SharesOfWindow` | src/tau/weights/compute.py:15-33 | with one to four filled slots the latest king gets 100, 60, 40 or 40 percent and each other king the same part of the rest; otherwise 40 and 15 percent each as far as the window goes |
| `Emission.WeightsBySlot` | src/tau/weights/compute.py:46-67 | each weight, in metagraph order, is the sum of the shares of the slots that pay the neuron and, for the burn uid, of those that pay nobody |
| `TokenEfficiency.CalculateTokenEfficiency` | src/tau/duel/token_efficiency.py:54-124 | a non-positive target is an error, and otherwise the loop's totals give the stats; a missing count voids its side's total |
| `TokenEfficiency.OneSideSaves` | src/tau/duel/token_efficiency.py:127-142 | in each round at most one side saves: exactly the side with fewer tokens, enough score and not too far behind, and then the part of the opponent's tokens it did without |
| `TokenEfficiency.BoostsAreBounded` | src/tau/duel/token_efficiency.py:111-124 | with at most the target's rounds the boosts are nonnegative, add up to at most the multiplier and move the delta by at most that |
| `TokenEfficiency.BonusIsSymmetric` | src/tau/duel/token_efficiency.py:54-124 | swapping king and challenger in every round swaps everything reported about them |
| `TokenEfficiency.OrderIsIrrelevant` | src/tau/duel/token_efficiency.py:71-109 | any order of the same rounds gives the same totals |
| `TokenEfficiency.KingTotalIsSum` | src/tau/duel/token_efficiency.py:71-83 | the king's token total is the sum over all rounds, and there is one exactly if no round lacks its count |
| `TokenEfficiency.ChallengerTotalIsSum` | src/tau/duel/token_efficiency.py:71-83 | the same for the challenger |
| `TokenEfficiency.ComparedRounds` | src/tau/duel/token_efficiency.py:85-87 | the comparisons counted are the rounds in which neither side lacks its count |
| `TokenEfficiency.DashboardAddsUp` | src/tau/dashboard/public.py:2252-2329 | the dashboard's per-task contributions of each side add up exactly to that side's boost |
| `TokenEfficiency.ContributionIsScaledSaving` | src/tau/dashboard/public.py:2266-2298 | the second implementation's contribution is the first one's saving scaled to the pool, and "Eligible" is shown exactly for a positive saving |
| `TokenEfficiency.ReasonsAreTrue` | src/tau/dashboard/public.py:2252-2329 | the reason the dashboard gives each side is so, and a saving is shown unless settings, a score or a count is missing |
| `DuelScores.CombinedDeltaIsBounded` | src/tau/db/duel_resolver.py:344-464 | in every state of every run the tally of any duel is the score of its rounds in whatever order they are listed, and token boosts move its delta off that of the quality means by at most the multiplier |
| `DuelScores.MeanVerdictsFollowQuality` | src/tau/duel/decide.py:83-102 | an order of a mean-score duel, however old, was decided on every qualified task of its pool; the challenger won exactly when some round is scored and the combined delta reaches the margin; trailing the margin by more than the multiplier it never wins, leading it by the multiplier it never loses |
| `DuelScores.MeanVerdictsFollowStoredRows` | src/tau/db/duel_resolver.py:401-433 | a mean-score order of a registered challenger, however old, was won exactly if some round is scored and the mean lead in the stored scores, plus the multiplier times the mean saving by the stored tokens over the pool, reaches the margin |
| `DuelScores.ScoreIsStored` | src/tau/db/duel_resolver.py:371-433 | the score of a pool, each side's scores and tokens being those stored for that side |
| `DuelScores.AggregateIsOfAnyListing` | src/tau/db/duel_resolver.py:401-433 | the order in which the query lists the rounds changes neither the means nor the boosts |
| `SolverJobs.NextDuelJobs` | src/tau/db/solver.py:244-290 | the loop over twice the limit in rows takes, row by row, the missing sides that fit whole |
| `SolverJobs.AppendRow` | src/tau/db/solver.py:272-287 | a row adds its missing sides if they fit and nothing otherwise |
| `SolverJobs.PairsStayTogether` | src/tau/db/solver.py:275-283 | a task lacking both sides is offered as an adjacent pair or not at all |
| `SolverJobs.TakeIsDistinct` | src/tau/db/solver.py:271-290 | no side is offered twice |
| `SolverJobs.TakeFits` | src/tau/db/solver.py:271-290 | at most the limit is offered |
| `SolverJobs.TakeFills` | src/tau/db/solver.py:271-290 | all but one unit of the limit is used unless every row was taken |
| `SolverJobs.SidesAreTheMissingOnes` | src/tau/db/solver.py:272-287 | jobs are offered for exactly the missing sides of the rows: the king's solve if that is missing, the challenger's if that is |
| `SolverJobs.PairsAreInHashedOrder` | src/tau/db/solver.py:275-283 | of a pair the king's solve comes first exactly if the hash says so |
| `SolverJobs.RowsAreTakenInOrder` | src/tau/db/solver.py:271-290 | rows are gone through in order, and one is taken exactly if its sides fit in what the rows before it left |
| `SolverJobs.WindowLosesAtMostOne` | src/tau/db/solver.py:244-250 | fetching twice the limit in rows loses at most the last job, and exactly when one slot is left and a task lacking one side lies beyond |
| `SolverJobs.NothingOfferedExactly` | src/tau/db/solver.py:271-290 | nothing is offered exactly when no row exists, or the limit is one and both fetched rows lack both sides |
| `SolverJobs.QualificationIsExact` | src/tau/workers/task_solver/loop.py:238-248 | the widened query returns exactly the first eligible jobs of the whole queue |
| `SolverJobs.DuelsComeFirst` | src/tau/workers/task_solver/loop.py:228-237 | all free slots but one go to duels, or every eligible side in the table does |
| `SolverJobs.NoDuelWorkExactly` | src/tau/workers/task_solver/loop.py:228-237 | for any limit and any excluded jobs, a poll offers no duel job exactly when the limit is zero, no missing side is fresh, or the limit is one and the fetched rows are those of the excluded duel jobs followed by pairs only |
| `SolverJobs.PendingWorkIsFresh` | src/tau/workers/task_solver/loop.py:218-277 | the work offered is at most the limit, all different, and none of it running or cooling down |
| `SolverJobs.PairSurvivesExactly` | src/tau/workers/task_solver/loop.py:228-237 | an offered pair survives exclusion and the cut exactly when neither side is excluded and both fit; at the cut itself its first side goes alone |
| `SolverScheduler.Scheduler.Step` | src/tau/workers/task_solver/loop.py:157-198 | one tick: collect, expire, fill the free slots |
| `SolverScheduler.Scheduler.Collect` | src/tau/workers/task_solver/loop.py:158-168 | finished futures leave and exactly their keys start cooling down |
| `SolverScheduler.Scheduler.Submit` | src/tau/workers/task_solver/loop.py:194-196 | every job gets its own future |
| `SolverScheduler.Scheduler.Poll` | src/tau/workers/task_solver/loop.py:171-182 | work for exactly the free slots, excluding running and cooling keys; none if the poll fails |
| `SolverScheduler.JobsStayDistinctAndCapped` | src/tau/workers/task_solver/loop.py:153-198 | in every run the jobs in flight are all different, at most the cap, and none is cooling down |
| `SolverScheduler.FinishedJobsRest` | src/tau/workers/task_solver/loop.py:158-181 | a finished job is not launched again before one poll interval has passed, whatever the database offers |
| `SolverScheduler.CoolingJobsJustFinished` | src/tau/workers/task_solver/loop.py:158-168 | and no job rests longer: whatever cools down finished less than one poll interval before every tick since |
| `SolverScheduler.TicksFillSlots` | src/tau/workers/task_solver/loop.py:170-198 | a tick whose poll succeeds leaves a slot free only for want of work: all queued qualification jobs are busy then, and all missing sides too unless one slot is left |
| `SolverScheduler.DuelsStarveExactly` | src/tau/workers/task_solver/loop.py:171-204 | a run has launched no duel job exactly when at every tick so far no slot was free, no row waited, or one slot was free and the first two rows lacked both sides |
| `SolverScheduler.TickLaunchesDuelExactly` | src/tau/workers/task_solver/loop.py:171-182 | whatever is running or cooling down, a tick launches a duel job exactly when a slot is free, a missing side is fresh, and it is not one slot stuck behind pairs |
| `SolverScheduler.OneFreeSlotStarvesDuels` | src/tau/workers/task_solver/loop.py:171-204 | in particular, while no tick has more than one free slot and every waiting task lacks both sides, no duel job is ever launched |
| `SolverScheduler.TwoFreeSlotsLaunchADuel` | src/tau/workers/task_solver/loop.py:228-237 | a poll with at least two free slots launches a duel job whenever some side is missing and neither running nor cooling down |
| `TokenRotator.GitHubTokenRotator.TryToken` | src/tau/github/tokens.py:83-95 | one locked scan: the first ready position is taken and its cooldown dropped, or the time to sleep is returned |
| `TokenRotator.GitHubTokenRotator.MarkRateLimited` | src/tau/github/tokens.py:103-121 | the token's position cools for the reported seconds or the default; an unknown token changes nothing |
| `TokenRotator.MarkingCoolsTokenExactly` | src/tau/github/tokens.py:114-120 | marking makes a token unusable exactly when its other copies in the list, if any, are cooling already |
| `TokenRotator.MarkedTokenRests` | src/tau/github/tokens.py:103-136 | after a mark, until the reported seconds, a minute if none were, or two minutes after a refusal, no scan takes the position, and then it is ready again |
| `TokenRotator.SleepsOnlyWhenAllCool` | src/tau/github/tokens.py:86-95 | a scan sleeps exactly when every token is cooling, and then exactly until the first of them is usable |
| `TokenRotator.RoundVisitsEachOnce` | src/tau/github/tokens.py:86-88 | one scan visits every position exactly once |
| `TokenRotator.ReadyTokenIsTakenInARound` | src/tau/github/tokens.py:76-101 | a token ready at every scan is taken within as many scans as there are tokens, whatever the others do |
| `TokenRotator.ReadyTokenComesCloser` | src/tau/github/tokens.py:86-92 | every scan that takes another token brings a ready one strictly closer |
| `TokenRotator.EventKeepsValid` | src/tau/github/tokens.py:103-136 | marks and scans name existing positions only |

## Left out

- git, Docker, HTTP, the LLM, SQL text and asyncio internals: a transaction, lock section or file operation is one step; a clone yields a complete tree or fails.
- Hash values: cache keys, fingerprints and the hashed side order are abstract; the cache key is injective.
- IEEE rounding of scores, costs, weights and times.
- Power loss: files keep the order in which they were written; an agent is a thread, and a thread dying alone covers more than a process dying.
- Reuse of a process and thread number by a new agent while an orphaned clone of the old one still runs.
- A tree removal of the eviction that fails part way: the pass counts the key as deleted, and what is left behind has no marker.
- A commit string that ends in a line break after its forty digits, which the pattern also lets through.
- The uncached clone when no cache directory is configured, credentials in urls, and git metadata clean-up.
- Database models, migrations and queries that no modelled transaction needs; `king_score`, model names and telemetry columns.
- Score aggregation in `ArenaRuns` itself: there the delta and the number of scored rounds are an arbitrary function of the judged rows, so its theorems hold for any; `DuelScores` puts in that of the code. Token totals stored for display are not modelled.
- Different pool targets in different workers, changing targets, and equal crowning times: one fixed configuration, kings ordered by crowning.
- Promotion publishing, registration caches and the metagraph: registrations are chosen by an adversary at each snapshot.
- The cost bound of the proxy: the price per token may change between requests, so clamping by average price bounds nothing; only the token dimensions are bounded.
- Rewriting of model, provider and sampling parameters, and streaming: they do not touch the budget.
- The body of a request that is not a JSON object: the handler refuses it before admission.
- Usage counters that no decision reads (cached tokens, reasoning tokens, upstream errors, the request list).
- Comments and blanks in lines of the disabled-upstreams file, errors reading or writing it, the splitting of configured url lists, and the filter of disabled urls at start-up.
- `reset` of the router, reconfiguring its store, and recording a result without the list of configured urls, which falls back to the urls seen so far.
- Other processes writing the disabled-upstreams file.
- Affinity keys of prompts: a key is an arbitrary string, empty for none.
- The capacity of the describe queue: handing on a fetched unit may wait, which is the gap between `Keep` and `HandOn` in `WorkQueueRuns`.
- Loss of a unit other than by an exception in the fetcher: cancellation at shutdown ends the process and its counters.
- Commit sampling, task description and retries inside a unit; several generator processes on one database.
- Chain calls, the metagraph and the poll loop of the weight setter beyond the schedule itself.
- Legacy solution rows and the sanitizing of usage summaries in the solver's database.
- Partial submission of a batch when the thread pool raises midway: a poll launches all of its work or none.
- `TokenRotator.GitHubTokenRotator.constructor`: an empty token list is excluded by its precondition where the code raises an error, and the loop of `get_token` around the locked scan, which sleeps and tries again, is a run of `TryToken` events.
- `ProxyBudget.EstimatePromptTokens`: takes the lengths of the serialized tools and response format as numbers; serializing them is not modelled.
- All other dashboard payloads and queries, configuration parsing, judging prompts, security policy tables, scripts and examples: string tables or single-branch facts.
