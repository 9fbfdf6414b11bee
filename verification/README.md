# Quota sync: a Dafny model of its three crash-tolerant state machines

The sidecar keeps three promises while talking to a host that can fail, answer late or not answer:
subscriptions are reset once per upstream seven-day cycle, a one-shot reset card is spent at most once,
and user balance transfers neither repeat nor lose track of money. Each is modelled here as steps over
durable tables and a host state, with a crash, a lost reply or a refused call possible between any two
steps, and as in-place methods proved equal to an uninterrupted run of those steps.

Times are whole microseconds; percentages, window costs and balance targets are reals; transfer amounts
are whole cents. A table is a map or a sequence, and a commit is one assignment.

| files | what they hold |
|---|---|
| `CycleDetector`, `StateStore`, `AccountRuns` | the classifier of usage snapshots, the durable tables, and what every sequence of polls keeps |
| `HostCycle`, `RetryEngine`, `RetrySafety`, `RetryWitnesses` | the host's reset, one visit to one target in steps, retries of many events under crashes and other actors, and the runs in which events undo each other |
| `EventPass`, `EventExecutor`, `ExecutorRun`, `EventRuns`, `TargetListing` | a whole pass, the same in place with its counts, a whole run with its report, passes and polls cut at any commit, and how targets are listed |
| `EventOutcome`, `PassOutcome`, `RunOutcome`, `WholeRuns` | what a queued event holds and what its turn comes to, a whole pass target by target, what statuses and requests mean in every state a crash can leave, and that passes and runs of the executor are among those |
| `CardSchedule`, `CardPurpose`, `CardExecutor`, `CardOutcome`, `NativeConfig`, `ScheduleGate` | the reset card under any interleaving, when it may be spent at all, one run in place, when that run spends it and what it records, what the plugin saves, and the gate a saved schedule passes |
| `RequestIds`, `RateLimiter`, `TransferSaga`, `TransferResults`, `TransferExecutor`, `TransferOutcome`, `LimitedTransfers`, `LimiterRestarts` | the idempotency key, the sliding window, the saga's interleavings, their results, one request in place, what it is answered and leaves, and the saga behind the limiter in one life of the process and over several |

## Where the code differs from its documentation, or promises less than one might expect

- `README.md:140` says every automatic reset has seen the usage percentage fall. The window-cost branch
  (`quota_sync.py:469-478`) resets without it. `CycleDetector.UsageAlwaysFallsIff` says for exactly which stored rows
  the documented rule holds.
- `README.md:139` says observations cannot eat a real reset. They never move the confirmed boundary, but they do
  overwrite the stored percentage: a drop written before the window has rearmed is spent
  (`AccountRuns.DropWrittenEarlyIsSpent`, with an instance in `AccountRuns.EarlyDropExample`). A transition is
  recognised exactly when the last written sample still shows the drop (`AccountRuns.ObservationsKeepTheTransition`).
- One event clears a subscription at most once. Several events of one configuration do so if and only if their cycles are
  pairwise equal or at least seven days apart (`RetryWitnesses.ClearsOnceIffSeparated`); resets on window cost can bring
  them as close as the guard (`AccountRuns.EventsCanBeClose`).
  `RetryWitnesses.ClearsOnceIffCompatible` gives the condition for events that froze different windows.
- When the file shows the card's result but the host's switch is still open, the executor returns before looking at the host
  (`reset_card_schedule.py:92-93`), which stays open (`CardExecutor.ClosedFileHidesOpenHost`).
- Thresholds from the environment (`quota_sync.py:64-71`) are not bounded as saved ones are. The detector guarantees that
  need bounds carry their exact threshold conditions (`CycleDetector.ResetsStayAheadIffRearm`,
  `CycleDetector.ResetsAdvanceIffThresholds`). With no minimum shift and at most five minutes of rearming, a second fall of
  usage before the boundary is a reset whose event key is taken, and queues nothing (`AccountRuns.RepeatQueuesNothing`,
  `AccountRuns.EveryResetQueuesIff`).
- The save gate of the reset card compares with the last saved schedule only, so a closed task can be reopened by saving
  another id in between (`ScheduleGate.ReplacementReopens`); `ScheduleGate.ClosedTaskReopensIff` says which saves do. The
  jobs table still stops a second POST (`CardSchedule.FinishedTaskNeverPostsAgain`).
- The plugin saves a group name made only of information separators; the executor strips it and refuses the file
  (`NativeConfig.SavedConfigIsReadableIff`, `NativeConfig.SeparatorGroupExample`).
- The limiter reads its clock before taking its lock, so readings can reach it out of order. A call is then refused exactly
  when its own window is full if and only if readings come in order or the limit is zero
  (`RateLimiter.JudgesLikeHistoryIffOrdered`), and every window stays within the limit whatever the order if and only if the
  limit is at most one (`RateLimiter.NeverOverfullIff`).
- A run adds the counts of two passes, so a balance target that fails in the first and is set in the second is reported as
  both (`ExecutorRun.ReportedFailedAndSet`, `ExecutorRun.ReportedFailuresArePendingIff`).
- An exception while resolving the recipient that is not a business error leaves the transfer record `pending`, as a crash
  does (`TransferResults.StrandsIff`, `TransferExecutor.ServedStrandsIff`); nothing ever finishes it, and its key is
  answered 409 for ever (`TransferResults.LostRecordsWaitForever`).
- When a credit is applied although its call raised, the refund makes money, and the log says `compensated`
  (`TransferExecutor.CompensationCanCreateMoney`). `TransferExecutor.RefundMakesMoneyIff` says exactly when, and
  `TransferResults.MoneyMadeAndMissing` by how much the balances are off in every interleaving.
- The limiter's memory ends with the process: its bound holds for each life of it (`LimitedTransfers.RowsPerWindow`), and
  a window can hold the limit once for every life in it (`LimiterRestarts.RowsOverLives`,
  `LimiterRestarts.RestartsAttainTheBound`).

## Model

| member | source | states |
|---|---|---|
| `CycleDetector.ResetNeverTooFarAhead` | quota_sync.py:428-487 | under any thresholds at all, a reset verdict comes from a sample newer than the stored one and names a boundary at most seven days and five minutes after it |
| `CycleDetector.ResetsStayAheadIffRearm` | quota_sync.py:437-467 | every reset names a boundary more than five minutes ahead of its sample if and only if the rearm threshold exceeds five minutes |
| `CycleDetector.ResetsAdvanceIffThresholds` | quota_sync.py:434-487 | every reset advances the boundary by more than max(jitter, 5 min) if and only if the minimum shift exceeds that guard, or the rearm threshold exceeds it by five minutes, or rearming is impossible |
| `CycleDetector.AcceptedResetIsSound` | quota_sync.py:428-487 | under saved thresholds each reset lies in (sample + 5 min, sample + 7 days + 5 min] and advances past the guard |
| `CycleDetector.ResetIffEvidence` | quota_sync.py:428-487 | under saved thresholds the order of the branches is irrelevant: a verdict is a reset exactly for a plausible boundary with usage evidence (sampled cycle start, or time come and full shift) or cost evidence before its time |
| `CycleDetector.ResetsCanRepeatIff` | quota_sync.py:481-487 | a reset can name the confirmed boundary itself if and only if thresholds ask for no shift and for at most five minutes left |
| `CycleDetector.UsageAlwaysFallsIff` | quota_sync.py:469-478 | under any thresholds, the documented rule that every reset has seen usage fall holds for a stored row if and only if it has no positive window cost, or no sample time is left before its boundary, or the guard asks for a whole window |
| `CycleDetector.VerdictsByEvidence` | quota_sync.py:428-487 | under any thresholds each verdict on a newer sample has its own exact cause, whatever the order of the checks |
| `StateStore.Store.WriteObservation` | quota_sync.py:1037-1072 | the row's sample is overwritten, its cost kept when none is given, and its boundary moves only when asked to and never back; nothing else changes |
| `StateStore.Store.CreateEvent` | quota_sync.py:1074-1136 | event, targets and boundary appear together if key and target ids are new, with exactly the listed targets, all pending; otherwise no event appears and the observation fallback moves the boundary |
| `StateStore.Store.CreateBalanceEvent` | quota_sync.py:1138-1194 | the same for an event with balance targets |
| `StateStore.Store.MarkTarget` | quota_sync.py:1236-1250 | one target's status changes if the row exists, and nothing else |
| `StateStore.Store.FinishEvent` | quota_sync.py:1252-1272 | the event becomes complete or pending again according to whether all its subscription targets are terminal |
| `StateStore.Store.MarkBalanceTarget` | quota_sync.py:1288-1296 | one balance target's status changes if the row exists, its balance and all else kept |
| `StateStore.Store.RetargetBalance` | quota_sync.py:1298-1306 | one balance target's balance changes if the row exists, its status and all else kept |
| `StateStore.Store.FinishBalanceEvent` | quota_sync.py:1308-1328 | the event becomes complete or pending again according to whether all its balance targets are terminal |
| `StateStore.PollAccounts` | quota_sync.py:1563-1659 | the loop over accounts leaves the tables as its polls one after the other, each reading what the previous left |
| `AccountRuns.KeyTakenIff` | quota_sync.py:1081-1083 | in a store reached by polls under any thresholds, the key of a boundary no earlier than the confirmed one is taken exactly when it is the confirmed one and the account has an event |
| `AccountRuns.ResetKeyIsNew` | quota_sync.py:1081-1083 | so a reset under thresholds that always advance never meets the key of an existing event |
| `AccountRuns.NoLostReset` | quota_sync.py:1037-1221 | after any polls with distinct targets, under any thresholds, the stored boundary is that of the account's newest durable event, or its baseline while it has none |
| `AccountRuns.OneEventPerCycle` | quota_sync.py:1074-1194 | under any thresholds and targets no two events of an account, of either mode, have the same boundary |
| `AccountRuns.EventsOfAnAccountAreSpaced` | quota_sync.py:1563-1659 | where every reset advances past the guard, successive events of an account, of either mode, are more than max(jitter, 5 min) apart, the first that far from the baseline |
| `AccountRuns.EventsCanBeClose` | quota_sync.py:469-478 | under any saved thresholds three polls create two events one microsecond further apart than that, so the spacing cannot be improved and is less than seven days |
| `AccountRuns.ResetRateBound` | quota_sync.py:428-487 | where every reset advances past the guard, n events imply n * G < newest sample - baseline + 7 days + 5 min, for every snapshot sequence |
| `AccountRuns.ResetQueuesOneEventIff` | quota_sync.py:1074-1136 | in every store that polls with distinct targets reach, under any thresholds, a reset verdict queues exactly one event if and only if its target ids are distinct and it does not repeat the boundary of the account's newest event; either way the row takes the boundary, the sample and its percentage, and the cost if one was given |
| `AccountRuns.RepeatQueuesNothing` | quota_sync.py:1129-1132 | a run under such thresholds in which a reset with distinct targets meets a taken key and queues nothing |
| `AccountRuns.EveryResetQueuesIff` | quota_sync.py:160-180 | under given thresholds every reset with distinct targets queues an event, in every run, if and only if they ask for some shift or for more than five minutes left |
| `AccountRuns.RowsOnlyMoveForward` | quota_sync.py:1563-1659 | under any thresholds every write of a row carries a later sample and no smaller boundary, and leaves other accounts alone |
| `AccountRuns.QuietRunKeepsBoundary` | quota_sync.py:1573-1587 | while no verdict is a reset, boundary and events stand still and the row holds the latest sample, its percentage, and the window cost of the latest sample that gave one |
| `AccountRuns.ObservationsKeepTheTransition` | quota_sync.py:1573-1587 | after any number of observations a fresh rearmed snapshot at the boundary with a full shift is a reset if and only if the last written percentage still shows the drop |
| `AccountRuns.ObservationsKeepTheCostDrop` | quota_sync.py:469-478 | and before the boundary a plausible new one is a reset if and only if the cost fell below that of the latest sample that gave one |
| `AccountRuns.WithheldResetIsNotSpent` | quota_sync.py:1588-1638 | a reset withheld by a dry run, or for want of the balance attribute, any number of times, leaves row and events alone, and every later snapshot is judged as before |
| `AccountRuns.DropWrittenEarlyIsSpent` | quota_sync.py:479-487 | once a low percentage is on file past the boundary, no later low snapshot resets anything, over any number of polls |
| `AccountRuns.EarlyDropExample` | quota_sync.py:479-487 | under the default thresholds, a snapshot that resets on its own is ignored when a snapshot with the drop was written a minute earlier |
| `HostCycle.CycleWindowsApplied` | quota_sync.py:1341-1358 | true exactly when a periodic window is selected and each selected one starts at the cycle's start or at or after its end |
| `HostCycle.SubscriptionRow.AdminResetQuotaForCycle` | patches/sub2api-cycle-reset.patch:46-78 | the row, the answer and whether usage was cleared: refused exactly without a periodic window or for a boundary not in (now, now + 7 days + 5 min], expired exactly for an inactive or expired row, and cleared at most once |
| `HostCycle.SubscriptionRow.ResetUsageWindows` | patches/sub2api-cycle-reset.patch:63-67 | exactly the selected windows are zeroed and restarted, and nothing else of the row changes |
| `HostCycle.TestsAgreeIffPeriodic` | quota_sync.py:1341-1358 | sidecar and host agree on every row and cycle if and only if a periodic window is selected |
| `HostCycle.ResetAlignsOnce` | patches/sub2api-cycle-reset.patch:58-72 | an answered reset leaves the row applied, clears exactly when it was not, and clears nothing when repeated; a refusal changes nothing |
| `HostCycle.RolloverKeepsAlignment` | patches/sub2api-cycle-reset.patch:61-62 | windows that roll to starts at or after the cycle stay applied |
| `HostCycle.HostAcceptsDetectedCycle` | patches/sub2api-cycle-reset.patch:47-50 | the host accepts a detected boundary at any clock reading from the sample to five minutes after it, and later refuses it only because its time has come |
| `RetryEngine.StepsReachEnd` | quota_sync.py:1449-1497 | a visit cut after at least as many steps as remain is the whole visit |
| `RetryEngine.AdminHost.ResetSubscription` | quota_sync.py:636-651 | one POST is issued with the event's frozen windows and cycle, and the host row, the reply and the 404 outcome follow the host's rules and the fate of the request |
| `RetryEngine.Inspect` | quota_sync.py:1450-1467 | the first read either settles the target without any write call or hands it to the POST, as the steps do |
| `RetryEngine.PostAndCheck` | quota_sync.py:1468-1497 | exactly one POST, then the outcome the reply and the second read decide |
| `RetryEngine.ProcessTarget` | quota_sync.py:1447-1497 | one visit in place leaves store and host as the uninterrupted steps do |
| `RetrySafety.OneEventClearsOnce` | quota_sync.py:1437-1499 | through any crashes, lost replies, late requests, retries and rollovers one event clears the subscription at most once, and a done target stays aligned |
| `RetrySafety.TerminalForever` | quota_sync.py:1228-1234 | a done or skipped target keeps its status through every continuation of every run |
| `RetryWitnesses.CloseCyclesClearTwice` | patches/sub2api-cycle-reset.patch:61-67 | for any two events that share a window and lie closer than seven days there is a run in which the earlier cycle is cleared for twice and the later one's done target is no longer aligned |
| `RetryWitnesses.ClearsOnceIffCompatible` | quota_sync.py:1437-1499 | any events of one subscription, whatever windows and groups they froze, clear at most once per cycle in every run if and only if events of one cycle select the same periodic windows, and events that share a window are seven days apart with the earlier one's windows among the later one's, or five minutes further apart |
| `RetryWitnesses.ClearsOnceIffSeparated` | quota_sync.py:1331-1338 | under one configuration that condition is that cycles are equal or at least seven days apart |
| `RetryWitnesses.DoneStaysAlignedIff` | quota_sync.py:1454-1467 | every done target stays aligned in every run if and only if no event can reset a shared window to a start that another one does not accept |
| `EventPass.CutVisitProgresses` | quota_sync.py:1447-1497 | a visit that dies anywhere leaves every event's frozen fields, targets and terminal rows alone and issues only justified calls |
| `EventPass.PassProgress` | quota_sync.py:1437-1499 | a pass keeps frozen fields, target sets, terminal rows and complete events, calls only for open targets with frozen windows and cycle and positive balances, and marks an event complete exactly when all its targets are terminal |
| `EventPass.OpenTargetsNeverRise` | quota_sync.py:1228-1286 | the open targets of an event after progress are a subset of those before |
| `EventPass.VisitOutcome` | quota_sync.py:1447-1497 | for one uninterrupted visit under any faults, over the row's fields: it posts exactly if the row was read, is in one of the event's groups, active, not deleted, not expired and not aligned; exactly when the host clears and what the row then is, and when the target ends done, skipped or failed |
| `EventPass.AnsweredVisitIsTerminalIff` | quota_sync.py:1447-1497 | a visit whose requests are all answered ends terminal if and only if the row is gone, ineligible or already aligned, or the host, by its own clock, is inside the cycle and takes the row for unexpired |
| `EventPass.PassCompletesIff` | quota_sync.py:1437-1499 | whatever fails in a pass, a pending event ends it complete if and only if each of its open targets is settled in its turn, given the host rows that the turns before have left |
| `EventPass.HealthyPassCompletes` | quota_sync.py:1437-1499 | one pass in which every call is answered, inside the cycle and by a host clock not ahead, completes every event, those without targets included |
| `EventExecutor.VisitPending` | quota_sync.py:1446-1498 | the loop over pending targets in place equals visiting them in order and finishing the event |
| `EventExecutor.SettleOne` | quota_sync.py:1394-1432 | one balance target in place: re-read, mark, set, mark the outcome |
| `EventExecutor.FailAll` | quota_sync.py:1380-1384 | a failed attribute read marks every pending target failed and changes nothing else |
| `EventExecutor.SettleAll` | quota_sync.py:1394-1432 | the loop over balance targets in place, with its counts |
| `EventExecutor.ProcessBalanceEvent` | quota_sync.py:1361-1434 | a balance event in place equals its specification, and the counts it returns are the specified ones |
| `EventExecutor.ProcessPendingEvents` | quota_sync.py:1437-1499 | a whole pass in place equals the pass the results are about, and so do its counts |
| `EventExecutor.BalanceCountsExact` | quota_sync.py:1361-1434 | set, skipped and failed are the numbers of targets, pending at the start, that are then done, skipped and failed; together they are all of those, and failed is the number still pending |
| `EventExecutor.PassCountsExact` | quota_sync.py:1437-1445 | the same for the totals of one pass |
| `EventOutcome.QueuedEventAsPlanned` | quota_sync.py:1074-1194 | a poll adds no event, or one at the end that holds the planned account, boundary, groups and windows, is not complete, and has exactly the listed targets, of one kind, each pending with its own balance |
| `EventOutcome.BalanceEventOutcome` | quota_sync.py:1361-1434 | a balance event in its turn makes exactly one set call per open target, in ascending order, to the positive number read for the user or else the balance on file, which the row keeps, and none if the attributes were not read; each row ends done, skipped or failed exactly as its reply says |
| `EventOutcome.SubscriptionEventOutcome` | quota_sync.py:1446-1498 | a subscription event in its turn asks exactly once for each open target whose row is served and not aligned, with the windows and the cycle of the event, and for no other; the row is cleared exactly if the host carries it out, and the target ends done, skipped or failed for its exact cause |
| `EventOutcome.ChangingHostOutcome` | quota_sync.py:1447-1497 | the same for a visit whose row changes between its first read, its request and its second read |
| `PassOutcome.PassServesTarget` | quota_sync.py:1437-1499 | a whole pass asks for a target exactly once if its event is pending, it is open and the row its turn finds is served and not aligned, and otherwise not at all; its status follows |
| `PassOutcome.PassSetsBalance` | quota_sync.py:1361-1434 | a whole pass sets a balance exactly once if the event is pending, the target open and the attributes read, to the number read or the balance on file, and otherwise not at all; so a target it turns done had its call in that pass |
| `PassOutcome.PassLeavesOutsidersAlone` | quota_sync.py:820-840 | a row outside its events' groups, inactive, deleted or expired gets no request in a pass and keeps usage and windows |
| `PassOutcome.QueuedTargetIsServed` | quota_sync.py:1563-1659 | in the pass after the poll that queued them, each listed id whose row is served and not aligned is asked for exactly once, for the planned windows and the sampled boundary, and no other id is |
| `PassOutcome.QueuedBalanceIsSet` | quota_sync.py:1563-1659 | and each listed user's balance is set exactly once if the attributes are read, to the number read or the planned balance |
| `ExecutorRun.RunExecutor` | quota_sync.py:1556-1665 | a run in place is a pass, the accounts and a second pass, with the counts of both added; a dry run makes no pass |
| `ExecutorRun.ReportedFailuresArePendingIff` | quota_sync.py:1556-1665 | the failures a run reports are the targets still pending at its end plus those pending between its passes, and exactly the former if and only if the first pass left none |
| `ExecutorRun.ReachableIsSettled` | quota_sync.py:1308-1328 | what that assumes, that a complete event has no open target, holds in every state a run over any host can leave |
| `ExecutorRun.ReportedFailedAndSet` | quota_sync.py:1556-1665 | a target that fails in the first pass and is set in the second is reported as both, with nothing pending |
| `EventRuns.VisitsAreRuns` | quota_sync.py:1447-1497 | a visit that nothing interrupts, or that dies after any number of steps, is one of the runs the next results are about |
| `EventRuns.EventsAlwaysWellFormed` | quota_sync.py:1437-1499 | over any host whose rows change, appear or go between any two steps, in every state any crash can leave, an event has one kind of target, no stored balance is zero or below, and complete means all targets terminal |
| `EventRuns.NothingIsRedone` | quota_sync.py:1228-1286 | from any moment of such a run on, terminal targets keep their rows and get no write call, and every later call for an existing event carries its frozen windows and cycle |
| `EventRuns.OnlyPollsMakeHistory` | quota_sync.py:1502-1659 | passes, crashes and the host never change account rows or the frozen part of events: history is that of the polls alone |
| `EventRuns.NoLostResetThroughCrashes` | quota_sync.py:1502-1659 | no lost reset, over any host and under any thresholds, with polls, passes and crashes in any order |
| `EventRuns.EventRateThroughCrashes` | quota_sync.py:1502-1659 | and, where every reset advances past the guard, the spacing and the rate bound |
| `RunOutcome.StatusesWereSeen` | quota_sync.py:1447-1497 | over any host that changes and any crash, a done target's row was at some moment aligned in the windows its event froze, and a skipped one's was at some moment missing, outside the groups, inactive, deleted or expired |
| `RunOutcome.RequestsWereDue` | quota_sync.py:1449-1469 | every request ever sent was for a row that at some moment was in its event's groups, active, not deleted, unexpired and not aligned, and carried that event's windows and cycle |
| `RunOutcome.SettledBalancesWereSet` | quota_sync.py:1394-1422 | a done balance target had a set call with exactly the balance its row keeps, which the host answered; a skipped one had such a call for a user the host did not know |
| `WholeRuns.PassIsARun` | quota_sync.py:1437-1499 | every pass, whatever fails in it, is one of the runs whose every state these results are about |
| `WholeRuns.ExecutorRunIsARun` | quota_sync.py:1556-1665 | and so is every run of the executor: a pass, the accounts and a second pass |
| `TargetListing.Subscriptions` | quota_sync.py:620-628 | each listed id once, ascending, with the last item listed under it |
| `TargetListing.ListedHasLast` | quota_sync.py:620-628 | an id that is listed is carried by some item, and by a last one |
| `TargetListing.LatestIsLast` | quota_sync.py:620-628 | the last item that carries an id is the one listed |
| `TargetListing.EligibleTargets` | quota_sync.py:843-858 | exactly the ids whose latest row is in a target group, active, not deleted and not expired, each once |
| `TargetListing.CollectBalanceTargets` | quota_sync.py:902-923 | every user is either one target with its own positive balance or a warning, so target ids are distinct and no target is zero |
| `CardSchedule.AtMostOnePost` | reset_card_schedule.py:105-155 | over every interleaving of runs, crashes, lost replies and saves at most one reset-card POST is issued per task id |
| `CardSchedule.PostsAreClaimedThenClosed` | reset_card_schedule.py:105-140 | each POST follows, in its own run, the durable claim and then the mark of a closed switch, and no other run ever claimed the task |
| `CardSchedule.ClosedWasShown` | reset_card_schedule.py:50-60 | at the moment each such mark was made the host's configuration held that run's task and showed it closed |
| `CardSchedule.PostsFollowAClosedHost` | reset_card_schedule.py:113-140 | so every POST was preceded, in its own run, by a moment at which the host showed its task closed |
| `CardSchedule.StatusesAreTruthful` | reset_card_schedule.py:113-152 | skipped and dry_run mean no POST, success exactly one that reported the reset, and no row no POST |
| `CardSchedule.PutsOnlyCloseTheTask` | reset_card_schedule.py:50-60 | every PUT body is the configuration just read with that same task's switch closed and its result set |
| `CardSchedule.JobsOnlyMoveForward` | reset_card_schedule.py:105-152 | from any moment on, job rows stay and move only from absent to claimed to one final value |
| `CardSchedule.FinishedTaskNeverPostsAgain` | reset_card_schedule.py:89-112 | once a job row is final no later save or run posts for its id |
| `CardPurpose.PostsAreDue` | reset_card_schedule.py:80-140 | over every interleaving a POST comes only from a run whose own task was valid, switched on and due for at most fifteen minutes, on a usable account still listing the reserved card |
| `CardPurpose.RehearsalsNeverPost` | reset_card_schedule.py:121-123 | as long as every saved configuration is a dry run, no interleaving issues a POST |
| `CardExecutor.AloneIsAnInterleaving` | reset_card_schedule.py:73-155 | an uninterrupted run is one of the interleavings, in any company |
| `CardExecutor.JobTable.ClaimJob` | reset_card_schedule.py:106-112 | the row is inserted, claimed, exactly when the id has none |
| `CardExecutor.UpdateResult` | reset_card_schedule.py:50-60 | one PUT closing the task exactly when the host still holds it and does not show it closed with this result; the return value and the host afterwards in every case |
| `CardExecutor.CloseSwitch` | reset_card_schedule.py:115-116 | closing the switch in place, up to the checks or the outcome to record |
| `CardExecutor.CheckAndSpend` | reset_card_schedule.py:117-149 | the checks and the POST in place, up to the outcome to record |
| `CardExecutor.ProcessSchedule` | reset_card_schedule.py:73-155 | a whole run in place leaves jobs, host and log as the steps do and returns their result |
| `CardOutcome.ClaimedRunOutcome` | reset_card_schedule.py:113-155 | a run that holds the claim, whatever the host then shows, posts exactly if its switch is closed, it is at most fifteen minutes late and before the card expires, no rehearsal, the account usable and the reserved card listed with at least one available; every status and note has its exact cause, and the host and the return value follow |
| `CardOutcome.FirstRunOutcome` | reset_card_schedule.py:73-155 | an uninterrupted first run leaves all alone and says why, or claims the task and does that; over the fields of the file, the host and the answers |
| `CardOutcome.LaterRunOutcome` | reset_card_schedule.py:89-96 | a run of a task with a job row changes no row and posts nothing, whatever fails, and updates the host exactly when the file does not show the row's result and the task is not early |
| `CardOutcome.DueCardIsSpentOnce` | reset_card_schedule.py:73-155 | after any interleaving, an uninterrupted run of a task without a job row leaves one POST for it exactly if it was due in every respect, and once it was claimed nothing that follows adds another |
| `CardExecutor.ReconciliationConverges` | reset_card_schedule.py:80-96 | with a job row and the file's task in the host, whatever switch and result either shows, one undisturbed run leaves the host showing it closed with the row's result if and only if it already did, or the file is valid, not early and does not show that result itself; nothing else changes |
| `CardExecutor.ReconciledStays` | reset_card_schedule.py:50-57 | once the host shows the result, no run of the task writes anything under any faults, whether it reads the old file or the new one |
| `CardExecutor.SecondRunWritesNothing` | reset_card_schedule.py:89-96 | after a run that converged a second one issues no PUT, from the old file or the new one |
| `CardExecutor.ClosedFileHidesOpenHost` | reset_card_schedule.py:92-93 | with the file closed and showing the row's result and the host still open, no run changes anything and the host stays open |
| `NativeConfig.CheckBounds` | native/main.go:166-177 | accepts exactly a shift of 1 to 8 days, 1 to 7 days left, and a tolerance of at most a day and below the shift |
| `NativeConfig.DeduplicateAccounts` | native/main.go:129-141 | fails exactly on a non-positive id, and otherwise keeps each id at its first place |
| `NativeConfig.DeduplicateGroups` | native/main.go:145-159 | keeps the trimmed non-blank groups, each once up to case, in order of first appearance |
| `NativeConfig.FirstIdsKeepOrder` | native/main.go:129-141 | the kept ids are distinct listed ids in the order of their first places |
| `NativeConfig.FirstGroupsAreTidy` | native/main.go:145-159 | the kept groups are trimmed, non-blank and distinct up to case, and tidy groups are kept as they are |
| `NativeConfig.FirstGroupsAreFirst` | native/main.go:145-159 | each kept group is the first one listed under its lower-cased name, trimmed, and they keep their order |
| `NativeConfig.FirstGroupsCover` | native/main.go:145-159 | a lower-cased name is kept exactly if some group that is not blank has it |
| `NativeConfig.NormalizeConfig` | native/main.go:96-186 | succeeds exactly on requests with one of the two account fields, a known mode, positive accounts, and, when enabled, an account, a group that is not blank and a periodic window, within bounds and with a valid schedule; an unset mode becomes subscription and all else is kept |
| `NativeConfig.NormalizationIsIdempotent` | native/main.go:96-186 | normalising a saved configuration gives it back |
| `NativeConfig.SavedThresholdsAreAccepted` | native/main.go:166-177 | saved thresholds satisfy what the detector's results assume |
| `NativeConfig.ReaderAcceptsIff` | quota_sync.py:195-300 | the files the executor accepts, saved by the plugin or not |
| `NativeConfig.SavedConfigIsReadableIff` | quota_sync.py:195-300 | the executor reads a saved configuration, unchanged but for group spelling, if and only if it is disabled, in balance mode, or has a group not blank to Python |
| `NativeConfig.SeparatorGroupExample` | native/main.go:147-151 | a group that the plugin keeps and the executor drops |
| `ScheduleGate.PluginServer.ApplyConfig` | native/main.go:256-268 | a save happens exactly for an acceptable request that is written and whose schedule, if on, has the account, time and card of the one on file under its id, which is on, or a new id and a time to come; then file and configuration are its normal form, and otherwise nothing changes |
| `ScheduleGate.ClosedTaskReopensIff` | native/reset_card_schedule.go:41-65 | over any save attempts, accepted or not, a task closed on file is at some point on again if and only if one of them is an acceptable, written request for it, switched on with a time after its clock, made while the file does not hold its id |
| `ScheduleGate.ClosedTaskReopensOnlyAfterReplacement` | native/reset_card_schedule.go:51-59 | so a closed task stays closed for as long as the file holds its id |
| `ScheduleGate.AppointmentsAreFixed` | native/reset_card_schedule.go:51-57 | over any saves, while the file holds the id of a task that is on, the task is off in the end or its account, time and card are those it had |
| `ScheduleGate.ReplacementReopens` | native/reset_card_schedule.go:41-65 | saving another id in between reopens any closed task that the plugin accepts and whose time is still to come |
| `RequestIds.RequestIdInjective` | transfer_server.py:532 | request ids of different senders, or with different keys, differ |
| `RateLimiter.Limiter.Allow` | transfer_server.py:367-376 | the loop prunes exactly the expired head of the sender's deque, then allows and records the call if there is room; other senders are untouched |
| `RateLimiter.QueueIsRecentHistory` | transfer_server.py:367-376 | the deque is the tail of the history of allowed calls, and what it has dropped lies before the window |
| `RateLimiter.DequeRefinesHistory` | transfer_server.py:352-376 | for readings in order a call is allowed exactly when fewer than the limit were allowed in the window that ends with it |
| `RateLimiter.WindowHoldsAtMostLimit` | transfer_server.py:352-376 | any window of the configured length holds at most the limit of allowed calls |
| `RateLimiter.JudgesLikeHistoryIffOrdered` | transfer_server.py:367-376 | after every ordered past, a call is refused exactly when the limit was already allowed in the window that ends with it, if and only if its reading is no earlier than the last or the limit is zero |
| `RateLimiter.NeverOverfullIff` | transfer_server.py:367-376 | readings in any order keep every window within the limit if and only if the limit is at most one |
| `LimitedTransfers.WorldIsReachable` | transfer_server.py:519-536 | every world behind the limiter is one of the saga's, so all its results hold there |
| `LimitedTransfers.EveryRecordWasAdmitted` | transfer_server.py:519-536 | every record was made by a thread that the limiter let in for the record's own sender |
| `LimitedTransfers.RowsPerWindow` | transfer_server.py:352-376 | over every interleaving, with readings in order, the rows of one sender whose requests were let in at a reading within any window number at most the limit; the window is over grant readings, since a row may be created later than its grant, and over one life of the process |
| `LimiterRestarts.RowsOverLives` | transfer_server.py:352-365 | across restarts they number at most the limit times the lives of the process that saw a call of the sender in the window |
| `LimiterRestarts.RestartsAttainTheBound` | transfer_server.py:352-365 | for any number of lives there is a run, readings in order, in which one window holds exactly the limit times the lives that saw a call in it |
| `TransferSaga.LookupFinds` | transfer_server.py:415-438 | the unique-key lookup finds a record with the id exactly when there is one |
| `TransferSaga.TotalUpdate` | transfer_server.py:560-565 | one balance call changes the total by its own amount |
| `TransferSaga.StepIsSound` | transfer_server.py:538-616 | each step keeps table, balances and its own thread consistent, in both failure models |
| `TransferSaga.OthersStayOk` | transfer_server.py:538-635 | a step of one thread invalidates nothing another thread relies on |
| `TransferSaga.RunKeepsInv` | transfer_server.py:519-635 | every reachable world has sound, distinct records, one executor per record, and balances that differ from the transfer-free ones by the records' effects |
| `TransferResults.MoneyIsMissingNotMade` | transfer_server.py:559-603 | definite model: at every step the balances total what they would without transfers, less what was debited and neither credited nor refunded |
| `TransferResults.LogTellsTheBalances` | transfer_server.py:538-616 | definite model, no crash, nothing in flight: the deficit is exactly the needs_attention amounts and each balance is the fold of the log by status |
| `TransferResults.DriftIsBounded` | transfer_server.py:559-603 | ambiguous model: per record the sender changes by -a or 0 and the receiver by 0 or +a, succeeded ones by exactly -a and +a, so total drift is within the unsettled amounts |
| `TransferResults.EachRequestExecutesOnce` | transfer_server.py:532-536 | one record per sender and key, with at most one debit, then one credit, then one refund |
| `TransferResults.FinishedRowsAreFinal` | transfer_server.py:450-456 | from any moment on, a finished record is never written and gets no further call; only calls that raised may still arrive at the host, and none for a succeeded record or in the definite model; every record keeps its identity |
| `TransferResults.OkMeansMovedOnce` | transfer_server.py:618-635 | a 200, first answer or replay, has a succeeded record of the same sender, debited once, credited once, never refunded |
| `TransferResults.OnlyOwnRecords` | transfer_server.py:532-536 | two requests meet in one record only with the same sender and key, and never both as executors |
| `TransferResults.CallsAreBacked` | transfer_server.py:541-565 | behind every balance call stands the request that made its record, with a balance that covered the amount when read and the resolved receiver, who is not the sender |
| `TransferResults.StrandsIff` | transfer_server.py:544-548 | in every reachable world, after any action, a record is stranded if and only if it was, or its thread died on it, or resolving its recipient raised something that is no business error |
| `TransferResults.StrandedForever` | transfer_server.py:618-635 | through every continuation nobody writes a stranded record or makes another call for it, and its replays are answered 409 and move no money |
| `TransferResults.LostRecordsWaitForever` | transfer_server.py:544-548 | so a record whose thread died on it, or let go of it that way, waits for ever |
| `TransferResults.RecordMakesMoneyIff` | transfer_server.py:559-603 | in every reachable world a record has made money if and only if it was credited and refunded, and is short if and only if it was debited and neither |
| `TransferResults.MoneyMadeAndMissing` | transfer_server.py:559-603 | ambiguous model: at every step the balances total what they would without transfers, plus what was credited and also refunded, minus what was debited and neither |
| `TransferExecutor.AloneIsAnInterleaving` | transfer_server.py:519-616 | an uninterrupted request is one of the interleavings, in any company |
| `TransferExecutor.TransferStore.CreatePending` | transfer_server.py:411-432 | a pending record is appended exactly when its request id is new |
| `TransferExecutor.TransferStore.SetReceiver` | transfer_server.py:440-448 | the receiver of one record changes, and nothing else |
| `TransferExecutor.TransferStore.Finish` | transfer_server.py:450-456 | the status of one record changes, and nothing else |
| `TransferExecutor.MoveMoney` | transfer_server.py:559-616 | debit, credit and compensation in place, with the status and code each exception leads to |
| `TransferExecutor.Compensate` | transfer_server.py:581-602 | the refund in place, ending compensated or needs_attention |
| `TransferExecutor.Execute` | transfer_server.py:538-616 | the checks that end in failed, then the money, in place |
| `TransferExecutor.Transfer` | transfer_server.py:519-536 | limiter, validation, claim, then execution or replay in place; a refused or invalid request touches neither table nor balances |
| `TransferOutcome.FirstRequestAnswered` | transfer_server.py:538-616 | in every reachable world an uninterrupted first request is answered 400 if not covered or to oneself, 404, 409 or 503 by the rejection, 502 for an unusable id, another exception or a failed call, and 200 otherwise, each exactly then, with the final status of its record and every balance |
| `TransferOutcome.RepeatedRequestAnswered` | transfer_server.py:618-635 | in every reachable world an uninterrupted repeated request changes nothing and is answered 200 exactly if its record succeeded, 409 exactly if it is pending, and otherwise 400 |
| `TransferOutcome.RepeatTellsTheOutcome` | transfer_server.py:519-635 | so a request sent again is answered 200 exactly if its first answer was 200 |
| `TransferExecutor.ServedStrandsIff` | transfer_server.py:538-558 | a request with a new id, served without interruption in any reachable world, leaves its record stranded if and only if its known balance covered the amount and the resolution raised something that is no business error |
| `TransferExecutor.RefundMakesMoneyIff` | transfer_server.py:559-616 | a request that reaches its balance calls makes money if and only if the debit returned, the credit was applied though its call did not return, and the refund was applied; exactly when it loses money; and exactly when it ends compensated or succeeded |
| `TransferExecutor.CompensationCanCreateMoney` | transfer_server.py:579-602 | for any two users, a credit applied although its call raised ends compensated with the receiver richer and the sender whole |

## Left out

- HTTP, JSON, pagination, authentication, logging, HTML and status files: their results are parameters of the steps.
- SQLite and the file system: a commit or an atomic file replacement is one step; `previous_*_window_start`, `affected_count`,
  `last_error`, time stamps and e-mail columns, and the unread `confirmed_used_percent`, are not kept.
- Floating point: percentages, costs and balance targets are reals, amounts are whole cents, and rounding on the wire is not modelled.
- Text forms of times and ids: two spellings of one instant, which the source tells apart when comparing tasks, are one time
  here, and the shape check of a schedule id is not modelled.
- `subscription_is_eligible` on a row without a readable expiry, which the source takes for unexpired: host rows here always carry one.
- The host beyond the patch: `ResetUsageWindows` is taken to zero and restart the selected windows, other actors follow the stated
  rollover assumption, and balances may go below zero. A host without the patch is not part of this model.
- The race between the read and the write inside `update_result`: frame results are relative to the configuration that call read.
- Exit codes: a suspicious verdict, which also sets one, leaves the same row as an observation.
- Two sidecar processes at once on the event tables: a run is a sequence of commits of one executor, cut anywhere.
- Crashes inside `TransferStore` between statement and commit: each of its methods is one step.
- Lower-casing of group names is a parameter of the configuration results; Unicode case tables are not part of this model.
- `min_amount`, e-mail checks and body limits of a transfer: one flag of the request says whether they passed.
- EventPass.HealthyPassCompletes: assumes that the boundary is in the future of the host's clock and that clock not ahead of the executor's; what a pass does without that is exact in EventPass.PassCompletesIff.
- Plugin catalogue, `Forward`, transport caching, generated code, packaging, installation, the host user interface, migration of old databases.
