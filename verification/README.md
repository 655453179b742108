# Verified model of the WTM algorithms

WTM is a Windows process monitor. Most of it moves data between the operating system, a web page and a
chat bot; behind that sit stateful algorithms that run for days. This project models those algorithms in
Dafny and proves what they keep over whole runs. `dafny verify dfyconfig.toml` checks everything.

Objects whose methods update fields are classes whose methods are tied, clause by clause, to a step
function on values; loops are loops with invariants. Each step function is then compared with an account
that does not know the implementation: a log of what happened, a batch formula, a per-process history.

| area | files |
|---|---|
| statistics | `Sums`, `Regression`, `Welford`, `RingBuffer` |
| process graph | `Processes`, `ParentLinks`, `ProcessTree`, `KillTree` |
| background AI scheduler, settings | `Scheduler`, `Config`, `Compaction` |
| rate limiter | `TokenBucket` |
| alerts and detectors | `Keys`, `AlertStore`, `Rules`, `RuleStreaks`, `HungProcess`, `SpawnStorm` |
| sample history | `Store` |
| rule lists | `RuleLists`, `Texts` |
| one-shot tokens | `OneShot`, `Confirmations`, `SuggestionStore` |
| shared vocabulary | `Seqs`, `Durations` |

## Conventions and assumptions

- Time is an integer number of nanoseconds handed to each step; the calendar day is handed to the scheduler
  beside it. Steps are taken in the order in which the lock is acquired. Where a result needs time not to
  go back from step to step, its precondition says so (`Ordered`, `Steady`, `WellFormed`); the scheduler
  reads its clock before it takes the lock (internal/ai/background.go:149), so there this is an assumption.
- Floating point is modelled by reals. The square root in the outlier test is a parameter constrained only
  to be the non-negative root of the variance.
- Case folding, trimming and case-insensitive comparison are arbitrary functions; `Texts.Lawful` lists all
  that is assumed about them, and `Texts.IdentityIsLawful` shows the assumptions are consistent.
- An LLM run is any (cached, answered, failed) outcome; terminating a process is any success or failure.
- Snapshots list each process id once where a result says `Distinct`.
- A process reports its creation in whole seconds, on the same clock as the analysis times.
- Every action queued for confirmation is one of its own (`OwnActions`): its number stands for that one call.

## Where the code differs from what is said about it

- The comment on the rules detector says a flapping process is not acted on in a loop because every
  (rule, process) pair respects its cooldown (internal/anomaly/rules.go:21-25). A miss deletes the pair's
  state together with the time of its last action. With ticks at least s apart two actions across a miss are
  only 2s and the hold time apart (the hold time counted as s if it is positive but shorter), and flapping can
  be that fast: `RuleStreaks.CooldownKeptIff` proves that the promise holds of a rule that can act exactly
  when that sum reaches its cooldown. The engine's ticks are at least half a second apart
  (internal/anomaly/engine.go:141-152); at that pace a cooldown of a minute needs a hold time of 59 seconds
  (`RuleStreaks.MinuteCooldown`).
- The comment on the tree builder calls a process without a parent an orphan root
  (internal/collector/tree.go:13-14). Such a process is a root, but the code marks only those whose parent is
  listed, is not process 0 and was created later (`ProcessTrees.OrphansAsDocumented`).
- The builder returns the processes as a forest (internal/collector/tree.go:11). It leaves out exactly those on
  or below a cycle of kept parent links (`ProcessTrees.ForestOmitsCycles`), for example a process listed as its
  own parent and all below it (`ProcessTrees.SelfParentInNoTree`).
- The kill-tree search keeps no record of visited processes. It never ends for a root on a parent cycle,
  such as a process listed as its own parent; `KillTrees.TerminatesIffAcyclicRoot` proves that it ends for every other root.
- A rule cooldown above 9223372036 seconds passes the rule checks and overflows the 64-bit duration, so the
  stored cooldown is never the one asked for (`RuleLists.CooldownsKeptIff`). It survives being listed and saved
  again exactly if its remainder modulo 2^55 is at most 9223372036 (`RuleLists.AcceptedIsNormalIff`,
  `RuleLists.FitsIff`); 2^55 seconds are kept for good as no cooldown, which the detector takes for a minute.
- The comment on the hung-process thresholds says a process that never showed more than 5% CPU or moved more
  than 10 MB is not alerted (internal/anomaly/hung_process.go:23-25). One byte moved after the first sample is
  enough (`HungProcesses.OneByteIsAlerted`); `HungProcesses.DaemonIff` gives the exact condition.
- The limiter's bucket survives saves of other settings (internal/ai/advisor.go:102-106), but a save with another
  limit and one back refill it, so each such save adds a burst to what the minute allows
  (`RateLimit.GrantsAcrossLimits`, `RateLimit.SwitchingRefills`).
- The spawn-storm detector is said to count the children created in the last minute and to fire on genuine fork
  bombs only (internal/anomaly/spawn_storm.go:55-59, internal/config/config.go:253). It counts first sightings,
  and its first analysis sees every listed child for the first time: it accuses a parent for the children it
  has, however old (`SpawnStorms.FirstAnalysisCountsChildren`, `SpawnStorms.OldChildrenAreAccused`). No storm is
  missed, though: enough listed children of an eligible parent, created within the minute, mean an alert
  (`SpawnStorms.NoStormIsMissed`). Once the first analysis is a minute old, an alert means enough creations
  within the minute, one gap between analyses and the lag with which children come to be listed
  (`SpawnStorms.AlertsAreGenuine`); the lag is never quite zero, because creation times are cut to whole seconds
  and the snapshot analysed is older than the analysis. Without any lag alerts count creations exactly
  (`SpawnStorms.PromptAlertsCountCreations`).

## Model

| member | source | states |
|---|---|---|
| Regression.LinearRegression | internal/stats/regression.go:5-41 | for any points the returned line has least squared error among all lines, in both branches; unless all xs coincide it is the only such line, R² is in [0,1], is 1 exactly on a perfect fit and is the explained share of the variance; short or mismatched input gives zeros |
| Regression.Denominator | internal/stats/regression.go:19-22 | the denominator is never negative and is zero exactly when all xs are equal |
| Regression.FitIsBest | internal/stats/regression.go:24-25 | the computed slope and intercept strictly beat every other line |
| Regression.FlatIsBest | internal/stats/regression.go:20-22 | with constant xs the mean of the ys is a best line |
| Regression.Explained | internal/stats/regression.go:27-40 | R² from the residual and total sums, including the zero-variance branch |
| RunningVariance.PushAllIsBatch | internal/stats/welford.go:14-20 | after any sequence of values the one-pass accumulator equals count, mean and sum of squared deviations of the batch |
| RunningVariance.OrderIndependent | internal/stats/welford.go:14-20 | the accumulator depends only on the multiset of values |
| RunningVariance.Welford.Add | internal/stats/welford.go:14-20 | the object holds the batch moments of everything added |
| RunningVariance.Welford.Variance | internal/stats/welford.go:24-29 | the unbiased sample variance, non-negative, zero below two values |
| RunningVariance.Welford.IsAnomaly | internal/stats/welford.go:36-41 | never below ten values; then exactly the square-root-free batch test, with the case of a negative nSigma spelled out |
| Rings.RingBuffer.constructor | internal/stats/ringbuf.go:14-22 | empty, capacity clamped to at least one |
| Rings.RingBuffer.Add | internal/stats/ringbuf.go:24-32 | the contents become the last capacity items of the old contents and the new one |
| Rings.RingBuffer.Slice | internal/stats/ringbuf.go:34-43 | the contents, oldest first, through the modular indexing |
| History.HistoryIsLastSamples | internal/storage/store.go:79-108 | over any run, a process's ring holds the last procCap samples recorded for it since it was last pruned, its last-seen time is that of the newest, and both maps track exactly the processes with samples |
| History.PruneDropsExactlyStale | internal/storage/store.go:148-160 | pruning removes exactly the processes last seen before the cutoff and leaves the other histories alone |
| History.SampleOnFields | internal/storage/store.go:98-107 | a listed process adds one sample, with the time of the snapshot and each of its own readings |
| History.Store.SetLatest | internal/storage/store.go:55-61 | the latest snapshot is replaced, a timestamped row enters the system history ring, and every listed process is recorded |
| History.ProcessRings.RecordSnapshot | internal/storage/store.go:88-107 | a snapshot advances every listed process's ring and last-seen time, in list order, and touches no other ring |
| History.ProcessRings.RecordProcess | internal/storage/store.go:89-107 | one listed process: find or make its ring, append, note the time |
| History.ProcessRings.ProcessHistory | internal/storage/store.go:137-145 | the ring's contents, empty for an unknown process |
| History.ProcessRings.PruneStaleProcesses | internal/storage/store.go:148-160 | both maps lose the same stale processes; the count of removals is returned |
| ParentLinks.DepthBounded | internal/collector/tree.go:55-60 | a chain of parent links that ends is shorter than the number of processes; this bounds the recursion |
| ParentLinks.DepthNotOnCycle | internal/collector/tree.go:48-60 | a process whose chain ends is on no cycle |
| ParentLinks.DepthIffNoCycle | internal/collector/tree.go:48-60 | a chain of links ends exactly if it never comes to a cycle, so a process either has a depth or is on or below a cycle |
| ProcessTrees.BuildProcessTree | internal/collector/tree.go:15-53 | for any list, including cyclic and self parent links: child lists and roots are exactly those the kept links call for, sorted by CPU, orphans marked exactly, and every process whose chain ends carries its chain length as depth |
| ProcessTrees.AssignDepth | internal/collector/tree.go:55-60 | ends, numbers exactly the processes under a node with their depth, and leaves the rest alone |
| ProcessTrees.LinkOne | internal/collector/tree.go:23-36 | one node: root, orphan root, or child of its kept parent |
| ProcessTrees.SortByCpu | internal/collector/tree.go:38-46 | the same nodes in descending order of CPU |
| ProcessTrees.ForestShowsExactly | internal/collector/tree.go:22-53 | a walk of the built forest shows exactly the processes whose chain of kept links ends at a root, each once |
| ProcessTrees.ForestOmitsCycles | internal/collector/tree.go:22-53 | a listed process is in no tree exactly when it is on or below a cycle of kept parent links |
| ProcessTrees.SelfParentInNoTree | internal/collector/tree.go:23-36 | a process listed as its own parent, and everything below it, is in no tree; process 0 listed so is a root |
| ProcessTrees.OrphansAsDocumented | internal/collector/tree.go:11-34 | a process whose parent is missing or was created later is a root, and marked an orphan exactly if that parent is listed and not process 0 |
| ProcessTrees.ListedParentKeepsChild | internal/collector/tree.go:24-35 | a process whose listed parent is not process 0 is among that parent's children, and neither a root nor an orphan, unless the parent was created later with both times known; then it is an orphan root |
| ProcessTrees.NoParentIsRoot | internal/collector/tree.go:24-28 | a process without a listed parent, or with process 0 for one, is an unmarked root and nobody's child |
| ProcessTrees.TableIsLast | internal/collector/tree.go:16-20 | a process id stands for its last entry in the list |
| ProcessTrees.PreorderExact | internal/collector/tree.go:48-60 | a walk from nodes of equal depth shows everything under them once and nothing else |
| KillTrees.TerminatesIffAcyclicRoot | internal/controller/controller.go:133-147 | the search empties its stack if and only if the root is not on a parent-link cycle |
| KillTrees.SelfParentNeverEnds | internal/controller/controller.go:139-145 | a process listed as its own parent is such a root |
| KillTrees.CollectDescendants | internal/controller/controller.go:133-147 | returns every proper descendant once, parents before children |
| KillTrees.StepInvariant | internal/controller/controller.go:140-145 | what is reported or stacked is always exactly what hangs off the root or off something reported, without repetition |
| KillTrees.KillListCoversForest | internal/controller/controller.go:112-118 | whatever the forest shows below a process is in its kill list |
| KillTrees.KillTree | internal/controller/controller.go:112-131 | every descendant and then the root is attempted exactly once; the number killed and the first error are those of that order |
| KillTrees.KillAccounts | internal/controller/controller.go:119-130 | no error is reported exactly when everything was killed, and the error reported is the first one |
| Compaction.CompactInPlace | internal/ai/background.go:234-242 | filtering a slice into its own backing array keeps exactly the recent entries in order |
| Configs.Config.Validate | internal/config/config.go:393-426 | rejects a bad port or interval untouched, otherwise every AI and scheduler field is raised to its bound |
| Configs.ClampFixesExactly | internal/config/config.go:406-426 | the clamps establish what the scheduler relies on and change nothing that already satisfies it |
| Configs.ClampIsLeast | internal/config/config.go:406-426 | the clamped configuration is the least one the scheduler accepts that lowers nothing |
| BackgroundScheduler.BackgroundTracker.MaybeSchedule | internal/ai/background.go:143-209 | the whole new tracker state and whether a worker starts, for every alert and configuration |
| BackgroundScheduler.BackgroundTracker.Finish | internal/ai/background.go:292-309 | the whole new tracker state when a run completes |
| BackgroundScheduler.BackgroundTracker.ApplySettings | internal/ai/background.go:75-87 | the history limit, and the run history cut to it |
| BackgroundScheduler.BackgroundTracker.ResetReservedDay | internal/ai/background.go:244-251 | the day's ledger starts at zero on a new day only |
| BackgroundScheduler.TrackerRefinesLog | internal/ai/background.go:171-206 | over any ordered run of alerts, completions and reloads the tracker's state is a function of the plain log of started runs; in particular the reserved tokens are exactly those of runs started on the reserved day and not found cached |
| BackgroundScheduler.DecisionsMatchLog | internal/ai/background.go:184-200 | every start and every skip reason is the one computed from the log alone |
| BackgroundScheduler.ReasonBeforeLock | internal/ai/background.go:143-169 | field by field: the skip reason is the first of missing configuration, disabled scheduler, disabled auto-analysis, unconfigured service and non-critical alert; a start needs all five to pass |
| BackgroundScheduler.ReasonUnderLock | internal/ai/background.go:184-200 | over every ordered run an admissible critical alert is skipped for the first of five obstacles read off the log, each with its exact condition, and started if and only if there is none |
| BackgroundScheduler.CooldownIsHeld | internal/ai/background.go:296-304 | a cooldown is in force exactly while that of some failed run lasts after which no run succeeded or set another |
| BackgroundScheduler.ChargedAdds | internal/ai/background.go:171-174 | a run is charged its token limit, at least one, on its own day, unless it was answered from the cache |
| BackgroundScheduler.EveryStartHasItsAlert | internal/ai/background.go:143-208 | every run of the log was started by a critical alert of that time and day under a configuration that is switched on |
| BackgroundScheduler.TrimKeepsLastHour | internal/ai/background.go:181-181 | after each trim the start list is the full start history restricted to the last hour |
| BackgroundScheduler.RefundsExactlyCurrentDay | internal/ai/background.go:293-295 | in every reachable state the refund guard holds exactly for a run of the current day, also after a rollover in mid-run |
| BackgroundScheduler.EveryRunIsSafe | internal/ai/background.go:184-206 | runs never overlap, and every start keeps the minimum interval, every earlier error's cooldown, the hourly limit and the daily budget in force at that start |
| BackgroundScheduler.HourlyAndDailyLimits | internal/ai/background.go:194-199 | under fixed limits every closed hour of the run holds at most that many starts and every day is charged at most its budget |
| BackgroundScheduler.NeverWedged | internal/ai/background.go:184-208 | under a validated configuration an admissible critical alert is always started once cooldown, interval, hour and day are over and nothing is in flight |
| BackgroundScheduler.RecentRunsAreNewest | internal/ai/background.go:75-87 | the run history is exactly the newest completed runs, as many as the limits in force on the way have left, by a fold over the events |
| BackgroundScheduler.LastRunsUnderOneLimit | internal/ai/background.go:306-309 | if every reload and admitted alert carries the same limit n, the run history is the last n completed runs |
| BackgroundScheduler.StatusFollowsRun | internal/ai/background.go:143-209 | over any ordered run the last event, last skip reason, last error and last run shown are those of the newest alert, decided from the log before it, and of the newest completed run |
| RateLimit.TokenBucket.Take | internal/ai/ratelimit.go:28-37 | refill, then one token if there is one |
| RateLimit.TokenBucket.DoRefill | internal/ai/ratelimit.go:39-53 | whole tokens for the elapsed time, capped; a refill that grants nothing keeps the clock |
| RateLimit.Advisor.SetConfig | internal/ai/advisor.go:107-117 | the bucket is kept when the limit is unchanged and rebuilt full otherwise |
| RateLimit.GrantsSinceCreation | internal/ai/ratelimit.go:28-53 | over any interleaving that keeps the limit, successes are at most the burst plus the whole tokens earned since creation |
| RateLimit.GrantsInWindow | internal/ai/ratelimit.go:28-53 | in any window of length d, successes are fewer than burst plus earnings of d plus one |
| RateLimit.TruncationLosesAtMostHalf | internal/ai/ratelimit.go:45-52 | whatever the polling pattern, all refills together grant at least half of what the time up to the last one earned, and less than one token is pending |
| RateLimit.RefillIsExact | internal/ai/ratelimit.go:39-53 | by inequality: a refill grants exactly the whole tokens earned, up to the size of the bucket, and moves the clock only if there was one |
| RateLimit.RefillsLoseLessThanOneEach | internal/ai/ratelimit.go:45-52 | over any run all refills together come to what the time earned, less than one token short for each |
| RateLimit.RefusedHadHalf | internal/ai/ratelimit.go:28-53 | a refused caller implies that since the bucket was last full the burst plus about half the nominal rate was handed out |
| RateLimit.GrantsAcrossLimits | internal/ai/advisor.go:107-117 | over any interleaving with any limits, successes are at most the first burst, one burst for every save that changed the limit, and the whole tokens earned at the limits in force |
| RateLimit.SwitchingRefills | internal/ai/advisor.go:107-117 | a save with another limit and one back leave a full bucket and the next take succeeds |
| RateLimit.AnyNumberAtOnce | internal/ai/advisor.go:107-117 | for every n a run at one instant, with limit changes, has n successes although no time passes to earn a token |
| Keys.Uint32ToA | internal/anomaly/alert.go:202-213 | the canonical decimal numeral, within the ten-byte buffer, for every 32-bit id |
| Keys.DecimalReads | internal/anomaly/alert.go:202-213 | numerals are digits only, read back as their number, and have no leading zero |
| Keys.DecimalCanonical | internal/anomaly/alert.go:202-213 | every digit string without leading zero is the numeral of its value |
| Keys.SplitsAtLastSlash | internal/anomaly/rules.go:67-67 | a rule key determines rule name and process id, whatever characters the name has |
| Keys.AlertKeyCollisions | internal/anomaly/alert.go:56-62 | two alerts share a key exactly when they agree on type and process, or one has no process and its type spells out the other's key |
| Alerts.AlertStore.Raise | internal/anomaly/alert.go:73-108 | new state, returned alert and novelty for muted, refreshed, capped and new alerts |
| Alerts.AlertStore.ClearByType | internal/anomaly/alert.go:114-127 | removes exactly the alerts of a type and counts them |
| Alerts.AlertStore.AppendHistory | internal/anomaly/alert.go:194-200 | the history becomes the last maxHistory entries |
| Alerts.AlertStore.Snooze | internal/anomaly/alert.go:162-172 | the key is muted and its active alert removed |
| Alerts.AlwaysConsistent | internal/anomaly/alert.go:73-172 | in every reachable state active alerts sit under their own key, no key is both active and snoozed, and the history is the newest part of everything logged |
| Alerts.RaiseOnFields | internal/anomaly/alert.go:73-108 | field by field: a refreshed alert takes over description, severity and details and keeps the rest; a new one is stamped, logged and, below the cap, active; other keys stay |
| Alerts.AnnouncedBalance | internal/anomaly/alert.go:73-172 | conservation: announcements of a key equal its removals plus whether it is active |
| Alerts.AnnouncedOnceBetweenRemovals | internal/anomaly/alert.go:83-89 | between removals a key is reported as new at most once |
| Alerts.MutedIff | internal/anomaly/alert.go:77-82 | in every reachable state a key is muted exactly until its last snooze runs out, although the store drops deadlines on the way |
| Alerts.SnoozeSilences | internal/anomaly/alert.go:162-172 | with raises in order of time, none under a snoozed key is announced, logged or changes anything before the snooze runs out, unless snoozed anew |
| Alerts.ActiveStaysBounded | internal/anomaly/alert.go:43-71 | if every cap set is positive and at most c, and c is at least the initial 200, the active set never exceeds c |
| RuleActions.RulesDetector.Analyze | internal/anomaly/rules.go:37-129 | one tick's new states and effects over all rules and processes, with forgotten pairs dropped |
| RuleActions.RulesDetector.HandleHit | internal/anomaly/rules.go:76-119 | hold time, alert, cooldown, actuator, and recording of successful actions |
| RuleActions.TickIsPairwise | internal/anomaly/rules.go:48-128 | with distinct names and ids a tick advances every (rule, process) pair independently of all others |
| RuleActions.JudgeOnFields | internal/anomaly/rules.go:49-66 | a rule judges a process exactly if it is enabled, has a pattern, finds it in the folded name of a process not ignored and knows the metric; it hits exactly if the reading compares true |
| RuleActions.MetricsRead | internal/anomaly/rules.go:155-167 | which reading each metric name stands for; no other name reads anything |
| RuleActions.OperatorsCompare | internal/anomaly/rules.go:169-189 | what each operator compares; an empty one is >=, any other compares false |
| RuleActions.MatchWhenListed | internal/anomaly/rules.go:48-66 | the one process listed under an id is the one judged |
| RuleStreaks.ActsExactlyWhenDue | internal/anomaly/rules.go:66-118 | over any run a pair is acted on exactly when its hits have lasted unbroken for the hold time and no success of that streak is within the cooldown |
| RuleStreaks.AlertFollowsStreak | internal/anomaly/rules.go:66-97 | over any run a tick raises a pair's alert exactly when its hits have lasted for the hold time, whether or not it acts, clears it exactly on a miss, and attempts only the action named, together with the alert |
| RuleStreaks.ActsOnFields | internal/anomaly/rules.go:85-119 | an attempt is made exactly when the hold time is over, the action is kill or suspend, an actuator is wired and no success of the streak is within the cooldown, a minute if none is set |
| RuleStreaks.TwoSuccesses | internal/anomaly/rules.go:70-74 | two successes are a cooldown apart within a streak, and across a miss at least two ticks and the time a new streak needs |
| RuleStreaks.CooldownKeptIff | internal/anomaly/rules.go:21-25 | for ticks at least `step` apart the documented cooldown promise holds of a rule that can act if and only if two steps and the time a new streak needs reach its cooldown |
| RuleStreaks.MinuteCooldown | internal/anomaly/engine.go:141-152 | at the engine's fastest pace a one-minute cooldown is kept exactly from a hold time of 59 seconds on |
| RuleStreaks.Flapping | internal/anomaly/rules.go:70-74 | for every spacing a run of one-process ticks with a miss in between whose two successes are exactly that close |
| HungProcesses.HungProcessDetector.Analyze | internal/anomaly/hung_process.go:44-126 | one tick's new records and effects; nothing when disabled |
| HungProcesses.DetectorFollowsLog | internal/anomaly/hung_process.go:58-126 | over any run each record summarises all the process showed since it appeared, and every clear and raise, with its severity, is what that log calls for |
| HungProcesses.GateMeansDaemon | internal/anomaly/hung_process.go:96-102 | the three-part gate with its wrapping subtraction blocks exactly the processes never busy after their first sample and first seen below the CPU bound |
| HungProcesses.DaemonIff | internal/anomaly/hung_process.go:95-102 | however long a process stays idle no alert comes of it, if and only if it was never busy after its first sample and first seen below the CPU bound |
| HungProcesses.OneByteIsAlerted | internal/anomaly/hung_process.go:23-25 | for every configuration a run in which a process within the documented daemon bounds is alerted |
| HungProcesses.ObserveSummarizes | internal/anomaly/hung_process.go:80-106 | one observation keeps the record a summary of the log |
| HungProcesses.SkippedOnFields | internal/anomaly/hung_process.go:50-68 | a process is left alone exactly if it is ignored or its folded name is a folded whitelist entry |
| HungProcesses.TransfersCount | internal/anomaly/hung_process.go:69-69 | bytes read and bytes written both count as activity |
| SpawnStorms.SpawnStormDetector.Analyze | internal/anomaly/spawn_storm.go:72-145 | one analysis' new state and the set of parents accused; nothing when disabled |
| SpawnStorms.WindowIsLastMinute | internal/anomaly/spawn_storm.go:81-117 | after every analysis of an ordered run the known processes are the listed ones, and each parent holds exactly its births of the last minute, in order, no entry when there are none |
| SpawnStorms.RaisedByBirths | internal/anomaly/spawn_storm.go:119-143 | an alert is raised for exactly the eligible listed parents with enough births in the last minute |
| SpawnStorms.RaisedOnFields | internal/anomaly/spawn_storm.go:105-129 | field by field: what counts is a first sighting less than sixty seconds old, and what is accused is the listed parent unless ignored or whitelisted |
| SpawnStorms.FirstAnalysisCountsChildren | internal/anomaly/spawn_storm.go:85-96 | on its first analysis the detector accuses exactly the eligible parents with enough listed children, whenever those were created |
| SpawnStorms.OldChildrenAreAccused | internal/anomaly/spawn_storm.go:85-96 | a parent is accused although none of its children was created in the last minute |
| SpawnStorms.PromptAlertsCountCreations | internal/anomaly/spawn_storm.go:105-122 | the case of no lag: alerts are raised exactly by the number of children seen that were created after the last analysis before the minute |
| SpawnStorms.NoStormIsMissed | internal/anomaly/spawn_storm.go:81-122 | over every ordered run in which no new child reports a creation later than the analysis that lists it, enough listed children of an eligible parent created within the minute mean an alert |
| SpawnStorms.AlertsAreGenuine | internal/config/config.go:253-254 | for any bound on the gap between analyses and any lag with which new children are listed, an alert means enough creations within the minute, the gap and the lag, once the first analysis is out of the window or listed no child |
| RuleLists.RoundTripIff | internal/server/rules.go:25-98 | listing rules and parsing them back is the identity exactly on normal lists, for every list of rules |
| RuleLists.AcceptedIsNormalIff | internal/server/rules.go:43-98 | an accepted list is normal, and survives the round trip, exactly when every cooldown is negative or at most 9223372036 modulo 2^55 |
| RuleLists.CooldownsKeptIff | internal/server/rules.go:81-94 | an accepted list has the cooldowns that were asked for exactly when none is above 9223372036 seconds |
| RuleLists.FitsIff | internal/server/rules.go:81-94 | the 64-bit duration of a cooldown is a whole non-negative number of seconds exactly under that closed condition |
| RuleLists.PeriodBecomesNothing | internal/server/rules.go:81-94 | an accepted cooldown of 2^55 seconds is stored as none, survives every round trip so, and counts as a minute |
| RuleLists.RulesFromDTO | internal/server/rules.go:43-98 | the first problem with its index, or the parsed rules |
| RuleLists.AcceptedIff | internal/server/rules.go:43-98 | a list is accepted exactly when every rule passes the field checks and no two trimmed names agree |
| RuleLists.AcceptedOnFields | internal/server/rules.go:64-95 | what each field of an accepted rule becomes, with the defaults for an empty operator and action |
| RuleLists.ProblemOnFields | internal/server/rules.go:46-80 | the problem reported is the first of seven, each with its condition |
| RuleLists.RejectedAtFirst | internal/server/rules.go:46-80 | a rejection names the first rule with a problem; all rules before it are accepted |
| RuleLists.RulesToDTO | internal/server/rules.go:25-41 | one wire rule per rule, in order |
| RuleLists.AiRuleToConfig | internal/server/ai_execute.go:157-214 | a suggestion passes exactly the checks of the manual table, on its merged durations and trimmed pattern |
| RuleLists.SuggestionIsNormal | internal/server/ai_execute.go:154-214 | an accepted suggestion survives the round trip, and has the cooldown asked for, exactly under the same two bounds |
| RuleLists.RuleServer.ExecuteAddRule | internal/server/ai_execute.go:299-312 | the rule is appended only if its name is free and the new configuration is saved |
| RuleLists.ChangeOnFields | internal/server/ai_execute.go:299-312 | a change has an effect exactly if it is saved, acceptable and, for a suggestion, of a free name; how the two spellings of each duration are merged |
| RuleLists.RulesStayNormal | internal/server/ai_execute.go:299-312 | from any initial list, any sequence of replacements and suggested rules leaves a list that survives the round trip, if the initial list did or one replacement took effect |
| OneShot.GrantedIff | internal/server/ai_execute.go:60-83 | a token is handed out exactly when the latest one stored under the key has not been taken or cleaned up, has not expired and fits |
| OneShot.UsedAtMostOnce | internal/telegram/bot.go:517-561 | a token is used at most once, strictly before expiry, only where it fits |
| Confirmations.Bot.StorePendingAction | internal/telegram/bot.go:573-594 | stores under the code after a cleanup, with the default lifetime for a non-positive one; nothing without a code |
| Confirmations.Bot.ConfirmAction | internal/telegram/bot.go:517-542 | the action to run is exactly the one granted, else the reason |
| Confirmations.Bot.CancelAction | internal/telegram/bot.go:544-562 | a cancel consumes the action without running it |
| Confirmations.Bot.CleanupPending | internal/telegram/bot.go:596-602 | drops exactly what has expired |
| Confirmations.QueueIsOneShot | internal/telegram/bot.go:517-602 | the queue after any operations is the one-shot tokens of their events |
| Confirmations.ActionTakenOnce | internal/telegram/bot.go:517-602 | over any interleaving an action that is run or cancelled was stored earlier for that chat under that code and has not expired, and no other operation runs or cancels it |
| Confirmations.RunIff | internal/telegram/bot.go:517-542 | an action is run by exactly the confirmations that come from its chat with its code before its deadline while it stands: not replaced, cleaned up or taken |
| Confirmations.CancelledIff | internal/telegram/bot.go:544-562 | it is cancelled by exactly such cancellations |
| Confirmations.RefusedIff | internal/telegram/bot.go:519-534 | which refusal is given: no code, another chat's code, or nothing unexpired under it |
| Confirmations.QueueIsStanding | internal/telegram/bot.go:573-602 | the queue holds under each code exactly the action that stands there, with a minute and a half when no lifetime is given |
| SuggestionStores.AISuggestionStore.Remember | internal/server/ai_execute.go:40-58 | prunes, then stores every suggestion with an id, later ones replacing earlier |
| SuggestionStores.IssuedOnFields | internal/server/ai_execute.go:48-57 | after a batch its last suggestion under a trimmed id stands there with the new deadline; other ids, and suggestions without one, change nothing |
| SuggestionStores.AISuggestionStore.Consume | internal/server/ai_execute.go:60-83 | the verdict and the new store for a missing id, an unknown or expired one, a mismatch and a match |
| SuggestionStores.SuggestionConsumedOnce | internal/server/ai_execute.go:40-91 | over any interleaving what is consumed matches the latest issue under its id, before expiry, once per issue |
| SuggestionStores.ConsumedIff | internal/server/ai_execute.go:60-121 | a suggestion is accepted exactly when the latest issue under its id stands, has not expired and agrees in id, kind, process, name and rule |

## Left out

- Foreign calls, tray, desktop, HTTP and SSE handlers, chat and LLM requests, JSON and YAML, file watching: input and output, not logic.
- Floating-point rounding, NaN and infinities: the statistics, thresholds and CPU figures are exact reals.
- Widths of counters that cannot overflow in practice, such as the sample count and the alert id; the 64-bit IO sum and the 64-bit durations do wrap in the model.
- The response cache, the event emitter, the job-object limits and the auto-action policy: small, and they would only add easy members.
- The other detectors and the evaluation of safety checks before a kill: independent of the properties here.
- Alert titles, descriptions and severities raised by the rules detector: text.
- The deep copy of snapshots and their enrichment in place after they were recorded: copying functions, and a caller's closure.
- History.Store.SetLatest: the per-process maps live in an object of their own, and a row carries one number per resource.
- BackgroundScheduler.BackgroundTracker.Finish: the alert, the answer and the suggested actions with their policy annotations are not part of a run's record.
- Configs.Config.Validate: the clamps of the auto-action, Telegram and display settings that follow are not modelled; nothing here reads them.
- Configuration changes between the ticks of a detector run: the rule list, ignore lists and whitelists stay fixed over a run.
- KillTrees.CollectDescendants: requires that the root is on no cycle, because otherwise the loop never returns; the lemma next to it proves that this is the exact condition.
- KillTrees.KillTree: killing is a function of the process id, because no process is attempted twice; the effect of one kill on the next is not modelled.
- RunningVariance.Welford.IsAnomaly: takes the square root as a parameter, because real square roots are not available.
- Compaction.Compact: the slice is copied to an array before it is filtered in place, so sharing of a backing array between two slices is not captured.
- A missing store in the suggestion endpoint, which accepts every suggestion, is not modelled.
