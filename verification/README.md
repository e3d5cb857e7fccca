# Verified model of tentacles

tentacles runs one-job GitHub Actions runners on a single host. A listener per pool says how many
runners are wanted; a scheduler starts and stops slots; each slot is a directory, a service unit and
a record in its pool's slot table. This project models the parts of that program whose correctness
spans several threads, calls or restarts, and proves what they promise.

- **The slot table as a concurrent protocol** (`slot_*.dfy`). `SlotModel` gives the table as a value
  and one function for each block of code that runs under the table's mutex. `SlotTable` is the
  table as the program keeps it, record objects updated in place; every method is proved to do to the
  table's view exactly what its function says. `SlotProtocol` interleaves those blocks with
  everything that happens outside the lock (backend calls, mkdir, wipes, watchers, the listener, the
  sampler, boot adoption), the backend being an oracle bound only by its documented contract.
  `SlotInvariant` and `SlotSteps` give an invariant per incarnation of a slot and show that every
  step keeps it; `SlotSafety` draws the conclusions for whole runs. `SlotHistory` writes down beside a
  run what happened to each incarnation, and says in those terms which slots scale-down may stop,
  which exits are acquire failures and what a completion reports.
- **The host scheduler** (`slot_count.dfy`, `ensure_*.dfy`, `host_*.dfy`, `scheduler.dfy`,
  `backoff.dfy`). `EnsureRun` says what one Ensure does to its table's live count. `HostCeiling` runs
  several such tables under one scheduler and bounds the host; `HostLimits` says when the maximum
  itself is a ceiling. `Scheduler` has the loops of a pass in place, against an environment that may
  change any pool between any two reads. `Backoff` bounds how fast a failing pool can retry, and
  shows the bound is exact.
- **Admission** (`admission_*.dfy`). The gate and the queued-job hints as methods, and the gate at
  work inside the scheduler with its reads of each table as separate steps, estimating each slot by
  the hints queued at that moment.
- **Usage history** (`history.dfy`, `history_store.dfy`). Moving averages at three levels, and the log
  they are rebuilt from, with torn writes, rotation and truncated replay.
- **Diagnostic archives** (`archive_tree.dfy`, `logship.dfy`, `prune_cut.dfy`, `retention.dfy`). The
  bounded copy, the archive's name, and pruning that may be cancelled anywhere and retried.
- **The payload template** (`payload.dfy`). Verification, staging and promotion with rollback.
- **Unit names** (`unit_names.dfy`). One printer and two independent parsers.

Where the code and its documentation disagree, the model follows the code:

- `internal/app/scheduler.go:11-13` calls the configured maximum the single ceiling of the host. It
  holds back every start if and only if adoption found no more slots than the maximum
  (`HostLimits.CeilingOnStarts`); with more, maintenance replaces one that exits
  (`HostLimits.MaintenanceReplacesAboveMaximum`), and the ceiling is the larger of the maximum and
  what adoption found (`HostCeiling.CeilingHolds`).
- A claimed job does not always complete. A claim that arrives while `Start` is still in flight, after
  which `Start` proves that nothing was launched, is wiped without a completion
  (`SlotSafety.FailedStartLosesCompletion`); every other one completes exactly once
  (`SlotSafety.ClaimedRecordCompletes`).
- Comparing a claim with its slot's reservation does not always keep the admitted load within the CPU
  limit: a slot whose launch was uncertain is charged as an unknown job, and a later claim as large as
  its reservation then exceeds what was admitted. On a host that may run two slots this can happen if
  and only if in some pool an unknown job fits the CPU limit and some job is predicted above it, which
  can be read off the history (`AdmissionLimits.ReservationIsNotEnough`). Whatever the history, the
  bound holds when a claim costs no more than its slot is charged at that moment
  (`AdmissionRun.AdmittedLoadFits`), as one of a ref queued when its slot was reserved does
  (`AdmissionHints.HintedClaimFits`).
- Reopening a log is not always exact even when nothing was truncated: a record written behind a torn
  line is lost (`History.TornTailLosesNext`). It is exact, whatever the records say, if and only if no
  accepted record was written behind a torn line, as many records lack only their newline as when the
  log was first opened, and no line is too long to be read (`History.ReopenExact`). So behind a tail
  torn by a crash nothing may be accepted, and behind a record that lacks its newline nothing may even
  be written (`History.LogMatchesByTail`).
- `internal/history/history.go:244-246` says that rotation checks the line count while it rewrites. It
  does not. Three records of 1000 bytes, where four lines are allowed, are cut to two
  (`History.ThreeOfFourAreCut`). Rotation drops a record if and only if the file has 250 bytes per
  allowed line and more records than half of those allowed; so one with fewer records than allowed
  loses some if and only if it has that size and more than that half (`History.RotationDrops`), which
  for n records of one length is said in their length (`History.EarlyRotation`).
- A line beyond one mebibyte makes the program fail to open its history, and once the file is due for
  rotation every append fails and leaves it as it is (`HistoryStore.Open`, `HistoryStore.Store.Append`).
  The program itself accepts such a record, and its line stays (`History.TooLongForEver`).
- Pruning that is cancelled inside an archive can leave it part-emptied for good: with the reduced
  size it may fit the budget at the next run (`PruneCut.RetryAfterPartial`, `PruneCut.PartialCanStay`).
- Archives carry creation times in whole seconds. Those of one second are pruned in the order in which
  the directory lists them, which is not specified, or in another, since the sort is not stable. A retry after an interruption may therefore keep other archives than the uninterrupted run
  would have (`PruneCut.TiesCanDiffer`). It keeps the same whatever the order if and only if, among
  unexpired archives of one second, all fit with everything newer or none does alone
  (`PruneCut.RetryAfterStop`); distinct creation times are enough.
- `internal/payload/payload.go:644-645` says that a version must be a single path component. A lone
  slash is its own base name and passes, too, as `Payload.SafeComponent` has it.
- One eligible archive whose name has the right shape and no possible date, such as a 13th month
  (`Retention.ShapedButNoDate`), makes every pruning fail (`Retention.Prune`).

## Model

| member | source | states |
|---|---|---|
| SlotTable.Table.CountLive | internal/slot/manager.go:440-448 | the loop over the map returns the number of tracked incarnations that are starting, idle or busy |
| SlotTable.Table.NextID | internal/slot/manager.go:562-570 | returns the lowest ID no record holds, and fails only when all 9999 are held |
| SlotTable.Table.ReserveSlot | internal/slot/manager.go:463-480 | inserts one fresh starting record under the lowest free ID, unless the table is closed or full, and then changes nothing |
| SlotTable.Table.DropReservation | internal/slot/manager.go:484-492 | a failed mkdir takes exactly this ID out of the table and leaves every record as it is |
| SlotTable.Table.FailStart | internal/slot/manager.go:493-501 | a failed start marks only this record stopping |
| SlotTable.Table.NameRunner | internal/slot/manager.go:519-524 | records the minted runner name on this record only |
| SlotTable.Table.LaunchUncertain | internal/slot/manager.go:533-543 | a launch of unknown outcome makes only this record busy |
| SlotTable.Table.LaunchOk | internal/slot/manager.go:545-551 | a launch sets the start time and makes the record idle unless a claim made it busy first |
| SlotTable.Table.PickSurplus | internal/slot/manager.go:588-625 | marks exactly the oldest eligible idle or overdue starting records, ties by ID, at most as many as are live above the desired count, and remembers their states |
| SlotTable.Table.SortedEligible | internal/slot/manager.go:591-617 | collects every eligible record once, ordered by start time and ID |
| SlotTable.Table.RestoreState | internal/slot/manager.go:632-638 | a failed stop restores the old state only while the record is still current, stopping, and not due for cleanup |
| SlotTable.Table.Claim | internal/slot/manager.go:692-712 | finds a record of that runner name if there is one, and records the claim on it only if it is starting, idle, or busy and unclaimed |
| SlotTable.Table.MarkResult | internal/slot/manager.go:718-730 | a nonempty result goes to one live record of that runner name; otherwise nothing changes |
| SlotTable.Table.RecordSample | internal/slot/manager.go:328-334 | a sample is stored only if its record is current and not being cleaned |
| SlotTable.Table.ObserveExit | internal/slot/manager.go:741-783 | an exit is recorded once, with a new open channel, the event to report, and the completion if the record was claimed and none was sent |
| SlotTable.Table.BeginClean | internal/slot/manager.go:797-815 | a worker is started exactly if the record is current and nobody is cleaning it, on its open channel or a new one |
| SlotTable.Table.FinishWipe | internal/slot/manager.go:822-827 | a successful wipe frees the ID only if this record still holds it |
| SlotTable.Table.CloseDone | internal/slot/manager.go:819 | the worker closes its own channel and leaves the record uncleaned |
| SlotTable.Table.RetryList | internal/slot/manager.go:863-874 | lists exactly the tracked records whose cleanup is pending and idle |
| SlotTable.Table.Adopt | internal/slot/manager.go:982-1003 | adoption inserts a busy record for a running unit, a stopping one for an orphan directory |
| SlotTable.Table.Close | internal/slot/manager.go:1042-1051 | closing changes nothing but the flag |
| SlotTable.LiveInIsCount | internal/slot/manager.go:440-448 | counting over incarnations and over tracked IDs agree |
| SlotSteps.KeepStep | internal/slot/manager.go:395-1051 | every step of every thread, from any state that satisfies it, keeps the per-incarnation invariant |
| SlotSafety.ReachableInv | internal/slot/manager.go:395-1051 | every state of every run from any boot satisfies the invariant |
| SlotSafety.RunningUnitKeepsDirectory | internal/slot/manager.go:901-933 | a unit that may be running, tracked or not, never has its directory or JIT file touched by a wipe, an aborted adoption included; after adoption it is tracked and not being cleaned |
| SlotSafety.WipeSparesRunning | internal/slot/manager.go:797-846 | no step of a cleanup worker of any incarnation, however stale, reaches the directory of a unit that may be running, whether adoption has looked at it yet or not |
| SlotSafety.WipeNeedsProof | internal/runner/runner.go:44-57 | a worker exists, and a wipe has succeeded, only for an incarnation whose launch provably did not happen, whose exit was confirmed, or whose unit was absent at adoption |
| SlotSafety.ReuseNeedsRelease | internal/slot/manager.go:562-570 | an ID is reused only after each earlier incarnation was wiped or owned nothing, and nothing of it is left that could touch the directory |
| SlotSafety.StepTouchesOnlyItsIncarnation | internal/slot/manager.go:745-846 | a step on behalf of one incarnation changes no other record and nothing of another ID; a stale one changes no table entry and no directory |
| SlotSafety.CleanupChannels | internal/slot/manager.go:797-881 | never two workers for one record, no channel closed twice, and every waiter's channel is closed or belongs to a worker at work or to a record that stays for the next retry |
| SlotSafety.TokenDiscipline | internal/slot/manager.go:395-438 | after adoption at most one record is starting, the one the token holder builds; with the token free every record is idle or busy and watched, or stopping with cleanup pending |
| SlotSafety.LeavesBusyOnProof | internal/slot/manager.go:533-543 | no step takes a record out of busy without a confirmed exit or a launch proved not to have happened |
| SlotSafety.EventsAtMostOnce | internal/slot/manager.go:741-846 | per incarnation at most one completion, one acquire failure, and one of stopped and exited, however often cleanup is retried |
| SlotSafety.ClaimedRecordCompletes | internal/slot/manager.go:772-790 | with the hook set, a wiped claimed record completed exactly once if and only if its start did not fail |
| SlotSafety.FailedStartLosesCompletion | internal/slot/manager.go:493-501 | a run in which a claimed record is wiped and never completes |
| SlotHistory.SurplusInNumbers | internal/slot/manager.go:588-625 | what scale-down picks is idle or starting and past its grace, the oldest first; what is past its grace and not picked is younger than all that is, and then all the excess was picked |
| SlotHistory.GraceIsKept | internal/slot/manager.go:592-600 | in every run no Ensure stops a slot that was ever busy, or that was launched no longer ago than the idle grace |
| SlotHistory.ExitIsReported | internal/slot/manager.go:758-770 | in every run an observed exit of a slot not yet stopping is an acquire failure exactly if a grace is set, the slot was never busy, and less than the grace has passed since its launch, or its reservation if it was not seen to launch; otherwise it is left to be reported as an exit; the exit of a stopped slot is neither |
| SlotHistory.CompletionIsReported | internal/slot/manager.go:772-783 | in every run, with the hook set, the exit of a claimed slot reports its first job, the processor time since the last sample before that claim, the last sample's peak, the time since the claim and the last result; no other exit reports anything |
| SlotCount.StepShrinks | internal/slot/manager.go:395-881 | after adoption no step but a reservation adds to the slots that count, or to what they are charged for, except for the one record a claim or an uncertain launch makes busy |
| SlotCount.StepReserves | internal/slot/manager.go:463-480 | a reservation adds exactly one counted record |
| SlotCount.StepStaysWithin | internal/slot/manager.go:395-421 | whatever interleaves with an Ensure, its table never exceeds the larger of its count and the desired count |
| HostCeiling.HostStepKeeps | internal/app/scheduler.go:14-62 | every step of the scheduler and of any table keeps the budget that bounds the host |
| HostCeiling.BudgetFalls | internal/app/scheduler.go:25-51 | exits and failures anywhere keep every variable of the pass an upper bound |
| HostCeiling.BudgetMoves | internal/app/scheduler.go:14-62 | the scheduler's reads and updates keep `total` at or above the real count |
| HostCeiling.RunningAtMostCount | internal/slot/manager.go:440-448 | the units that may be running never outnumber the slots that count |
| HostCeiling.CeilingHolds | internal/app/scheduler.go:14-54 | over all pools and interleavings, live records and units that may be running are at most the larger of the maximum and the count when the pass began, and so of the maximum and what adoption found |
| HostCeiling.TotalIsUpperBound | internal/app/scheduler.go:25-50 | in the allocation loop `total` is never below the number of live records, and is below the maximum before each Ensure |
| HostCeiling.RestingCountsLive | internal/app/scheduler.go:56-62 | between passes the slots that count are exactly those Active reports |
| EnsureRun.EnsureBounded | internal/slot/manager.go:395-421 | in every interleaving an Ensure takes its table's live count no higher than its target, unless it was there |
| EnsureRun.EnsureConverges | internal/slot/manager.go:395-421 | with no live slot exiting meanwhile an Ensure moves the live count up to its target at most or down to it at most, loses none below it, reaches it if no start fails or is held back, and tries no start where the pool has enough |
| HostLimits.StartsBelowMaximum | internal/app/scheduler.go:14-54 | with no more adopted than the maximum, every start, maintenance's too, finds fewer than the maximum live |
| HostLimits.MaintenanceReplacesAboveMaximum | internal/app/scheduler.go:15-23 | for every maximum and every larger number of adopted slots, a run in which a slot is started although the live slots already reach the maximum |
| HostLimits.CeilingOnStarts | internal/app/scheduler.go:11-23 | a start at or above the maximum is possible if and only if more slots than it were adopted |
| Scheduler.Pool.Ensure | internal/slot/manager.go:395-421 | what the scheduler relies on, with each Ensure's target recorded: the two predicates EnsureRun proves of the table's own Ensure in every interleaving and in a quiet one |
| Scheduler.Daemon.Maintain | internal/app/scheduler.go:15-23 | every pool gets one Ensure for no more than it has, so nothing is added; in a quiet environment for exactly the lesser of live and desired, and only surplus goes |
| Scheduler.Daemon.Tally | internal/app/scheduler.go:56-62 | pools read one after the other give a total between the final and the initial sum, exact in a quiet environment |
| Scheduler.Daemon.Visit | internal/app/scheduler.go:37-46 | a pool is passed over exactly when it is seen with what it wants or backing off, and otherwise gets one Ensure, for exactly one slot more than it was seen to have |
| Scheduler.Daemon.TakeTurn | internal/app/scheduler.go:35-51 | a turn goes to the pool under the cursor, moves the cursor by one across passes, records what it saw and gained, and gains at most one slot |
| Scheduler.Daemon.Allocate | internal/app/scheduler.go:30-54 | ends within (maximum - total + 1) turns per pool whatever exits, failures and refusals interleave, never above the maximum; in a quiet environment the host is full or every pool is still as a fruitless turn of this loop left it |
| Scheduler.Daemon.ReconcilePools | internal/app/scheduler.go:14-54 | a quiet pass without error leaves the host full or every pool with what it wants, in backoff, or last asked in this pass's allocation for one slot more than it has; with willing starts and modest demand every pool has exactly its desired count; its turns are bounded, in a quiet pass by what maintenance keeps |
| Scheduler.SettledExcuses | internal/app/scheduler.go:37-48 | of a pool stuck since a turn of the pass, a caller who sees only the pools before and after can tell that it is satisfied, in backoff, or was refused the slot it was asked to add |
| Scheduler.StreakCovers | internal/app/scheduler.go:30-48 | as many turns without progress as there are pools have had every pool, and each is still as its turn left it |
| Scheduler.MeetsDemand | internal/app/scheduler.go:31-52 | if every start succeeds and demand fits the host, it is met exactly |
| Scheduler.ValidateCapacities | internal/config/config.go:242-290 | the host's and pools' capacity checks accept exactly floors within ceilings within the host's maximum, itself from 1 to 32, with floors that together fit it |
| Scheduler.IdleDemandIsModest | internal/config/config.go:284-290 | under a validated configuration pools that want only their floors never want more than the host may run |
| Scheduler.FairShares | internal/app/scheduler.go:35-36 | over any stretch of turns two pools that gained a slot at each of their turns differ by at most one |
| Scheduler.Daemon.NextRetryWait | internal/app/scheduler.go:109-124 | the least positive wait of a pool below its desired count, zero exactly if there is none |
| Backoff.BackoffTimer.RecordFailure | internal/app/pool.go:310-319 | the delay starts at a second, doubles to at most thirty, and starts over three minutes after the last wait ended |
| Backoff.BackoffTimer.RetryWait | internal/app/pool.go:321-325 | what is left of the wait, never negative |
| Backoff.DelaysInARow | internal/app/pool.go:310-319 | the n-th failure in a row, none more than three minutes after the wait before it, is waited for 2^(n-1) seconds and at most thirty |
| Backoff.QuietResets | internal/app/pool.go:310-319 | a failure more than three minutes after the last wait is waited for one second |
| Backoff.WaitInNumbers | internal/app/pool.go:321-325 | at any time what is left of the wait runs to the last failure plus its delay |
| Backoff.OwnFailuresAreSpread | internal/app/pool.go:310-325 | from any state of the timer, each further launch's failure comes thirty seconds later less what the potential still owes |
| Backoff.LaunchesAreSpread | internal/app/pool.go:310-325 | N launches that each fail before the next starts span at least 30(N-1)-119 seconds, for any timing, resets and extra failures included |
| Backoff.SpreadIsExact | internal/app/pool.go:310-325 | from six launches on some trace spans no more |
| AdmissionGate.Gate | internal/app/scheduler.go:66-105 | admits a candidate exactly if history is off, nothing is live, or it fits beside every charge within the CPU and memory limits |
| AdmissionGate.AdmissionMeans | internal/app/scheduler.go:77-105 | beside live slots admission means that the candidate and all of them fit, cores and memory, whatever they come to use: a busy slot up to what its ref is predicted, any other up to its reservation or, in the candidate's pool, the candidate's estimate; and refusal that some such use does not fit |
| AdmissionGate.SumCoresConcat | internal/app/scheduler.go:73-91 | charges of snapshots read one after the other add up |
| AdmissionGate.HintQueue.NoteQueued | internal/app/pool.go:122-137 | expires old hints, then notes each nonempty ref within 1024 refs of at most 9999 announcements |
| AdmissionGate.HintQueue.Expire | internal/app/pool.go:139-147 | keeps exactly the hints no older than ten minutes |
| AdmissionGate.HintQueue.Consume | internal/app/pool.go:149-158 | uses up one announcement of this ref and touches no other |
| AdmissionGate.NotedCounts | internal/app/pool.go:122-137 | a batch raises a ref's count by its number of announcements, up to the cap, if it was hinted before or the batch fits |
| AdmissionGate.HintLasts | internal/app/pool.go:122-147 | an announced ref is hinted for ten minutes from its last announcement and no longer |
| AdmissionGate.UnexpiredInNumbers | internal/app/pool.go:139-147 | hints no older than ten minutes are kept with their counts and times, and no others |
| AdmissionGate.HintQueue.CandidateEstimate | internal/app/pool.go:161-182 | the least estimate covering every unexpired hint, in each dimension; the unknown job's if there is none |
| AdmissionGate.EstimateIsUnique | internal/app/pool.go:172-181 | the order in which hints are seen does not matter |
| AdmissionGate.EstimateInNumbers | internal/app/pool.go:161-182 | the estimate is at least every queued ref's prediction and in each dimension equal to one of them, and the unknown job's if none is queued |
| AdmissionRun.SnapshotCharges | internal/app/scheduler.go:73-91 | a snapshot counts every counted slot and is charged for at least as much |
| AdmissionRun.StepCharges | internal/slot/manager.go:692-712 | every step but a reservation only lowers what a table is charged, if a claim or an uncertain launch costs no more than its slot is charged already |
| AdmissionRun.ReserveCharges | internal/slot/manager.go:476-479 | a reservation adds exactly its own charge |
| AdmissionRun.GatedStepKeeps | internal/app/scheduler.go:66-95 | every step, the gate's reads of each table among them, keeps the admitted load bounded |
| AdmissionRun.AdmittedLoadFits | internal/app/scheduler.go:66-95 | in every run at most one slot is live or the live slots' charges fit the larger of the CPU limit and what adoption found charged |
| AdmissionRun.EmptyHostLoadFits | internal/app/scheduler.go:92-95 | in every run from a host where adoption found nothing that counts, at most one slot is live or the live slots' charges fit the CPU limit |
| AdmissionRun.ClaimIsAffordable | internal/slot/manager.go:699-708 | what the hypothesis on a claim asks, by the state of its slot |
| AdmissionRun.StepReservations | internal/slot/manager.go:476-479 | no step of any thread changes what a slot was reserved at |
| AdmissionHints.HintedStepKeeps | internal/slot/manager.go:476-479 | however the hint queues change, every reserved slot stays reserved at the estimate of the refs queued for its pool when it was reserved |
| AdmissionHints.HintedClaimFits | internal/app/pool.go:161-182 | in every run, gated or not, a claim of a starting or idle slot by a job of a ref that was queued when the slot was reserved costs no more than the slot is charged |
| AdmissionHints.ForeseenLoadFits | internal/app/scheduler.go:66-105 | in every run in which all claims are such and no estimate grows between gate and reservation, at most one slot is live or the live slots' charges fit the CPU limit, or what adoption found charged if that is more |
| AdmissionTrust.TrustSuffices | internal/slot/manager.go:533-543 | if in no pool an unknown job fits the CPU limit while some job is predicted above it, then claims and uncertain launches within their slots' reservations keep the live slots' charges within the CPU limit, or one slot is live |
| AdmissionLimits.UnderratedOverloads | internal/slot/manager.go:533-543 | for every history, limits, number of pools and maximum of two or more, if some pool is such, a run in which every claim is within its slot's reservation and two slots are charged beyond the CPU limit |
| AdmissionLimits.ReservationIsNotEnough | internal/slot/manager.go:533-543 | reservations are not enough if and only if the host may run two slots and some pool is such |
| AdmissionHistory.RecordedHistoryIsSane | internal/history/history.go:315-332 | a history of non-negative CPU times predicts no negative number of cores |
| HistoryStore.Aggregate.Absorb | internal/history/history.go:211-228 | in place, one record moves each average by a quarter, or seeds it |
| HistoryStore.Store.Absorb | internal/history/history.go:191-206 | one record into its ref, its pool and the host, made if missing, and nothing else |
| HistoryStore.Store.Append | internal/history/history.go:107-127 | a record reaches memory exactly if it was written whole; what a torn write leaves is on disk only; a file due for rotation with a line too long to read refuses every record |
| HistoryStore.Store.Rotate | internal/history/history.go:232-280 | a big enough readable file is cut to the newest half of the limit, and left alone on any failure, an unreadable line being one |
| HistoryStore.ReplayTail | internal/history/history.go:286-311 | the newest n decodable records, position by position the end of them all, malformed lines skipped; fails exactly if a line is too long for the scanner |
| HistoryStore.Open | internal/history/history.go:78-103 | the aggregates of the newest 5000 decodable records, unless the file cannot be read or has a line too long |
| History.TooLongForEver | internal/history/history.go:107-127 | a record whose line is too long to be read can be accepted, and no later write makes the log readable |
| History.TooLongInNumbers | internal/history/history.go:286-311 | a log cannot be read exactly if a line is longer than 1048576 bytes or an unfinished one has that many |
| HistoryStore.Store.Cores | internal/history/history.go:315-332 | the rate of the most specific usable level; with non-negative wall times an answer exactly if the host level is usable |
| History.CoresFromRecords | internal/history/history.go:315-332 | the rate is the average processor time of the ref's own records over their average wall time, if one was sampled and the latter is positive; otherwise that of the pool's records, and then of all |
| History.CpuAndMemFromRecords | internal/history/history.go:158-187 | processor time and memory are the averages of the ref's own sampled records, if any, then of the pool's, then of all |
| History.OthersDoNotCount | internal/history/history.go:158-187 | a record of another ref changes nothing predicted for a ref from records of its own |
| HistoryStore.Store.Cpu | internal/history/history.go:158-171 | the average of the most specific sampled level |
| HistoryStore.Store.Mem | internal/history/history.go:174-187 | the same for memory |
| History.LevelBlends | internal/history/history.go:191-206 | each level blends exactly the records that match it, whatever came between |
| History.StatsAverage | internal/history/history.go:211-228 | counts are numbers of records, and averages, the rounded memory one too, are those of the matching series seeded by their first value |
| History.NewestIsAQuarter | internal/history/history.go:211-228 | the newest value counts for a quarter and the average before it for three quarters, in memory rounded to the nearest integer |
| History.RoundingIsSmall | internal/history/history.go:211-228 | all the rounding together moves a memory average by no more than two bytes |
| History.TruncationError | internal/history/history.go:94-101 | after older records are dropped an average differs by exactly (3/4)^m times the distance of the older average from the first value kept |
| History.LevelAveragesWithin | internal/history/history.go:211-228 | every average, the rounded memory one too, stays within any bounds on the values absorbed |
| History.CountsAddUp | internal/history/history.go:191-206 | counts and sampled counts of a pool are the sums over its refs, and the host's over the pools |
| History.CoresPredictedIffHostUsable | internal/history/history.go:315-332 | with non-negative wall times a usable ref makes its pool usable, a usable pool the host, and a rate is predicted exactly if the host is usable |
| History.LogCounts | internal/history/history.go:107-127 | how many records a log decodes to after any writes, torn ones included |
| History.ReopenExact | internal/history/history.go:78-127 | whatever a log ended in, reopening it untruncated rebuilds memory, whatever the records say, if and only if no accepted record joined a torn tail, as many records lack only their newline as at first, and no line is too long |
| History.LogMatchesByTail | internal/history/history.go:107-127 | that condition by how the log ended at first: with a torn line, that nothing was accepted; with a record lacking its newline, that nothing was written |
| History.ReopenRebuilds | internal/history/history.go:78-127 | for the very records written, that condition suffices, and agreement needs as many lost as are left whole more than at first |
| History.TornTailLosesNext | internal/history/history.go:117-125 | a torn write of at least one byte followed by a good one loses the good one |
| History.RotationKeepsNewest | internal/history/history.go:255-279 | rotation keeps exactly the newest half-limit of the decodable records and mends the tail |
| History.RotationKeepsEnd | internal/history/history.go:255-279 | position by position, what rotation leaves is the end of what was there, half the limit long if there is that much |
| History.RotationDrops | internal/history/history.go:244-258 | rotation of a readable log drops a record if and only if it has 250 bytes per allowed line and more records than half the limit, so also below the limit |
| History.EarlyRotation | internal/history/history.go:244-258 | of n records of one length, a log below its limit loses some exactly if n is over half the limit and n lengths make 250 bytes per allowed line |
| History.ThreeOfFourAreCut | internal/history/history.go:244-258 | three records of 1000 bytes, where four are allowed, are cut to two |
| Logship.DiagCopier.CopyDirectory | internal/logship/logship.go:171-202 | copies exactly the kept tree within 4096 entries, 64 levels and the byte budget, or names a limit the source exceeds, or something failed |
| Logship.DiagCopier.CopyEntry | internal/logship/logship.go:204-247 | skips special and multiply linked entries, and otherwise copies the whole entry or fails for a reason |
| Logship.DiagCopier.CopyFile | internal/logship/logship.go:249-291 | reads in pieces reproduce the file and are charged to the byte budget |
| Logship.CostIsKept | internal/logship/logship.go:171-247 | what a copy makes and is charged is the filtered tree: directories and singly linked regular files, without the marker's name at the root |
| ArchiveTree.KeptShips | internal/logship/logship.go:204-247 | every path of the kept tree leads in the source, through directories alone, to a directory or to a file with one link and the same contents, and does not begin with the marker's name |
| ArchiveTree.ShipsKept | internal/logship/logship.go:204-247 | every such path of the source is in the kept tree |
| ArchiveTree.LevelsAreDepth | internal/logship/logship.go:171-180 | the levels of a tree are the length of its longest path of directories |
| ArchiveTree.KeptWithinSeen | internal/logship/logship.go:181-190 | no more is kept than entries were counted |
| Logship.Sanitize | internal/logship/logship.go:311-325 | keeps the allowed characters in place, replaces every other one, and reports whether any was allowed |
| Logship.StampReadsBack | internal/logship/logship.go:156 | every creation time to the second reads back from its printed form |
| Logship.StampPrintsBack | internal/logship/retention.go:136-140 | a creation time that can be read prints back to the same text |
| Logship.StampInDigits | internal/logship/logship.go:156 | the printed creation time has year, month, day, hour, minute and second in that order |
| Logship.PublishedNameReadsBack | internal/logship/retention.go:18 | a published name matches the retention pattern and its creation time reads back |
| Logship.NameOf | internal/logship/logship.go:151-156 | the published name carries the creation time, the archive's ID, the sanitized slot name, and the sanitized runner name or "unknown" if no character of it is allowed; it has no other characters than the pattern's and retention can read it |
| Logship.ShipDiag | internal/logship/logship.go:59-161 | what is published is the whole kept tree plus the marker within 4096 entries, 64 levels and 64 MiB, under the name retention can read; where nothing may fail, only an exceeded limit prevents it |
| ArchiveTree.MarkerIsFree | internal/logship/logship.go:191-193 | nothing copied takes the marker's path |
| Retention.DirectoryBytes | internal/logship/retention.go:185-230 | the exact size of a tree, unless it is deeper than 64 levels, beyond 64 bits, or something fails |
| Retention.MeasurePublished | internal/logship/retention.go:185-230 | a published archive measures exactly its marker and its files |
| Retention.RemoveEntries | internal/logship/retention.go:248-267 | removes everything but the marker, or stops with part of the tree left and the marker in it |
| Retention.ArchiveDir.Remove | internal/logship/retention.go:232-280 | removed whole, or cancelled with the marker still there |
| Retention.FindArchives | internal/logship/retention.go:86-140 | lists exactly the eligible archives with the creation times of their names and their sizes; fails if one has no possible date, is too deep or too large, and otherwise only on a fault |
| Retention.ShapedButNoDate | internal/logship/retention.go:136-140 | names of the right shape with a 13th month have no creation time |
| Retention.MomentsInOrder | internal/logship/retention.go:136-140 | creation times compare as their year, month, day, hour, minute and second do |
| Retention.MomentsAreSeconds | internal/logship/retention.go:136-140 | creation times count seconds, over minutes, hours, days, months and years |
| Retention.YearsInDays | internal/logship/retention.go:136-140 | by the Gregorian calendar |
| Retention.SortByCreated | internal/logship/retention.go:53-55 | the same archives, oldest first |
| Retention.PruneSorted | internal/logship/retention.go:56-83 | removes from the oldest on exactly until the rest is unexpired and fits; interrupted, it leaves an oldest-first prefix gone, at most one archive part-emptied and still marked, and the rest untouched |
| Retention.Prune | internal/logship/retention.go:34-84 | the same for a whole log directory, where nothing but eligible archives is touched, and nothing at all if one of them cannot be inspected; where nothing may fail it completes unless the limits are not positive, an archive cannot be inspected, or the sizes overflow |
| PruneCut.OrdersAgree | internal/logship/retention.go:53-71 | all orders of archives of the same second keep the same archives if and only if among unexpired ones of a second all fit with everything newer or none does alone |
| PruneCut.RetryAfterStop | internal/logship/retention.go:53-82 | stopping between archives and retrying later ends as an uninterrupted run at that time would have, whatever the order of ties, if and only if those left have no such unsafe tie; distinct creation times are enough |
| PruneCut.RetryAfterPartial | internal/logship/retention.go:53-82 | stopping within an archive and retrying keeps it and all newer ones exactly if it is unexpired and what is left of it fits with everything newer; otherwise the result is the uninterrupted one; whatever the order of ties, if and only if no tie is unsafe |
| PruneCut.PartialCanStay | internal/logship/retention.go:68-70 | sizes for which a part-emptied archive is kept |
| PruneCut.TiesCanDiffer | internal/logship/retention.go:53-55 | three archives of one second of which a retry keeps another than the uninterrupted run |
| Payload.MarkerReadsBack | internal/payload/payload.go:661-692 | a marker reads back exactly if neither part holds a newline, and otherwise does not read |
| Payload.Manager.TemplateMatches | internal/payload/payload.go:267-277 | a match means a tree unpacked to the end from an archive verified against that checksum |
| Payload.Manager.Verify | internal/payload/payload.go:337-359 | with a checksum, reports a match exactly if the archive's digest agrees with it position by position up to the case of a letter |
| Payload.OneDigestAgrees | internal/payload/payload.go:351-354 | a lower-case digest agrees with a lower-case checksum only if they are equal, and no two digests agree with one checksum |
| Payload.Manager.Obtain | internal/payload/payload.go:177-206 | at most one download beyond a missing archive, none if the cached one is usable and verifies, and success only with a verified archive in the cache |
| Payload.Manager.Unpack | internal/payload/payload.go:372-422 | only an archive read to its end gets a marker |
| Payload.Manager.Promote | internal/payload/payload.go:441-487 | success installs the staged tree; failure leaves the old one in place unless restoring it failed too, and then it is kept as the backup |
| Payload.Manager.Ensure | internal/payload/payload.go:150-208 | success means the marker is this version and checksum on the entries of a sound archive whose digest agrees with the checksum; once a complete tree was installed, one survives every failure; a matching template is left alone and nothing is downloaded for it, and otherwise at most two archives are; where nothing may fail it succeeds exactly if version and checksum are acceptable and the template matches or the archive is sound and verifies |
| Payload.Manager.EvictStale | internal/payload/payload.go:492-514 | evicts only other versions' archives, and all of them where nothing may fail |
| UnitNames.CheckID | internal/slot/manager.go:1079-1092 | accepts exactly four digits from 0001 to 9999 |
| UnitNames.IDsArePrintedNumbers | internal/slot/manager.go:562-570 | the accepted IDs are exactly the printed slot numbers |
| UnitNames.ValidNamespace | internal/systemd/backend.go:343-355 | accepts exactly the language of configured pool IDs |
| UnitNames.ParsersInvertPrinter | internal/slot/manager.go:1059-1076 | both parsers invert the printer for every pool ID and slot ID |
| UnitNames.AcceptedPrintsBack | internal/slot/manager.go:1064-1076 | whatever the slot table accepts prints back to the same string |
| UnitNames.PoolsStayApart | internal/systemd/backend.go:317-341 | no unit is accepted for two pools, by either parser or across them |
| UnitNames.PrintedForOnePool | internal/systemd/backend.go:312-315 | a unit of one pool is never taken for another's, even when one ID extends the other with dashes and digits |
| UnitNames.ParsersAgree | internal/systemd/backend.go:320-341 | the slot table accepts a unit exactly if systemd's parser does and its digits are a slot ID |
| UnitNames.OtherDigitsAreSystemdsOnly | internal/systemd/backend.go:335-339 | digits that are no slot ID pass systemd's parser and not the slot table's |
| UnitNames.Active | internal/systemd/backend.go:452-477 | of a listing understood in full, exactly this pool's units in order; anything malformed fails the whole listing |
| UnitNames.OwnUnitsAreOwn | internal/systemd/backend.go:461-467 | a unit is listed exactly if it parses to this pool |
| UnitNames.EightStates | internal/systemd/backend.go:468-474 | the states a unit may be listed in, stopped and failed ones among them |

## Left out

- The listener and the GitHub client; their events (desired counts, job starts and ends, queued refs)
  are nondeterministic inputs.
- systemd, process groups, signals and identity transfer; the backend is an oracle bound by its
  contract alone.
- File contents, HTTP, gzip, tar and SHA-256; trees are abstract, and hashing is an unknown function.
- Where tar entries and symlinks resolve to (`internal/payload/payload.go:516-614`).
- Liveness: nothing is said about steps that must eventually happen, nor about timeouts being met.
- Floating-point rounding: cores, CPU and wall times are exact reals; memory sums in the gate are not
  limited to 64 bits.
- The unlocked loops of `Ensure`, `startOne`, `stopSurplusContext` and `watch` are program counters of
  the transition system and not methods; the blocks they run under the mutex are the methods of
  `SlotTable.Table`.
- Scheduler.Pool.Ensure: stands for a whole Ensure call as its caller sees it; that the table's own
  one keeps what it promises of the live count is `EnsureRun.EnsureBounded` and
  `EnsureRun.EnsureConverges`, which also says that no start is tried where the pool has enough.
  That the retry wait moves only after a failed start rests on the pool's hooks, which the model of
  the table does not have.
- Scheduler.Daemon.ReconcilePools: in the quiet environment the clock stands still during a pass, so a
  pool found in backoff at its turn is still in backoff at the end.
- Logship.ShipDiag: a source that changes during the copy is not modelled, nor names too long for the
  filesystem; years have four digits.
- Logship.DiagCopier.CopyEntry: the exclusive creation of a target cannot clash, since names in an
  unchanging directory are unique.
- Retention.ArchiveDir.Remove: a failing file operation, other than cancellation, may leave an emptied
  directory without its marker, as in the program.
- Payload.Manager.Ensure: the cached archive does not change between its verification and its
  unpacking; a marker found at the first start that reads is taken to have been written by an earlier
  run.
- AdmissionRun.AdmittedLoadFits: history is on and does not change during the run, and a pool's
  estimate does not grow between its gate and its reservation.
- AdmissionLimits.ReservationIsNotEnough: a new slot may be estimated at any number of cores, as by a
  history that was different then; which numbers the refs of one history give is not asked.
- AdmissionHints.HintedClaimFits: a step of a hint queue may change it in any way, which covers
  noting, expiry and use; that the program's methods do only that is `AdmissionGate.HintQueue`.
- PruneCut.RetryAfterStop: archives published between the interrupted run and its retry are not
  among those compared.
- Retention.RemoveEntries: goes through a directory by recursion, where the program reads it in
  batches of 128 entries; the copier likewise reads a directory in one go.
- Metrics, logging, the dashboard, configuration defaults and dry runs.
