# Leases, credits, quotas and codecs of the VisionAI backend

Dafny models of the parts of the backend that keep invariants across calls, faults and interleavings,
with proofs over every input or every run. Check everything with `dafny verify dfyconfig.toml`.

| file | what it models |
|---|---|
| LeaseStore, LeaseRuns, LeaseRenewal | the Redis lock: SET NX with a TTL, compare-and-delete, compare-and-expire from a ticker |
| Basics, MapSum, Credits | shared definitions; the credit rows, deduction across them, refund, and the transaction journal |
| TaskLifecycle, TaskCharges, TaskRuns, TaskLedger, TaskRefunds, TaskStatuses, PictureTasks | submit, fail with refund, retry with a new charge: overlapping transactions over a ledger |
| ChainRefund | the refunds of a failed chain task: its own and the chain's proportional one |
| TaskProgress | the progress column: whole-row saves against a background ramp |
| QueueSlots | the queue slot scripts, the degraded mode and the check before a submit, for many requests at once |
| QuotaCounter, QuotaRebuild, DailyAllowance | the daily chat allowance: decrement with rollback, the script that rebuilds it, and the two together |
| PopupLimiter | the sliding-window script with a time to live on its key, run some time after its second was read |
| Codec | XOR with a repeating key, Base64 (section 4 of RFC 4648), and the stream marshaler's guess |
| VirtualId | the id of a virtual workflow, printed and parsed |
| Grants | daily credits and the register bonus, once per source id |
| ChatParticipants | membership rows with soft deletion under a unique index, and the counting query |
| MsgHistory, Experiments, WorkflowInputs | loops that implement a simpler specification |

## How the models are built

- Every Redis command and Lua script is one atomic step, and clients interleave between steps. A command
  may fail to arrive, or take effect with its answer lost; so may a commit.
- A credit transaction is two steps. It reads its user's rows without locking them, and it saves the ones
  it changes whole, with what it read as the base, when it commits (internal/dao/credit.go lines 41-57,
  144-152). Any number of transactions overlap.
- A Redis key with a time to live is live while the clock is before its expiry. Times in the lock are
  nanoseconds; the popup script uses whole seconds of the caller and milliseconds of the store.
- The rows a deduction works on are whatever the query in internal/dao/credit.go lines 41-48 can return
  (`IsQueryResult`); the lists are arbitrary otherwise. Rows whose expiry is NULL are treated as having a
  very late expiry.
- The lock on a task row is taken at its word: who holds it sees and writes the latest version of the task.
- `RefundCredits` runs in a transaction of its own inside `FailTask`. Neither its answer nor the save of
  the task that follows is assumed: a refund without one of them is the step called torn.
- In `TaskLifecycle` the list of attempts is a history kept for the statements; the source stores only
  the running one in the task row.
- Faults, clocks, UUIDs and configuration values are parameters.

## What turned out not to hold

The code is kept as it is; each point names the lemmas with its exact condition and those with a run that shows it.

- A renewal TTL below one second asks Redis for EXPIRE 0, so the first tick deletes the lock it should
  extend (`RenewalWorksIffOneSecond`, `ShortRenewalDropsLock`); and how many missed ticks a TTL survives is
  exact (`SurvivesMissesIff`): one is not survived from 1.5 up to 2 seconds (`OneMissIff`). A TTL set while the
  loop runs shortens the lease and leaves the period as it was (`ChangedTTLIff`).
- Two credit transactions of one user that overlap lose the first one's effect on a row both write: 60 and 60
  can be charged to a row of 100 that ends at 40 (`AccountedIffFresh`, `TwoSubmitsPayOnce`). The ledger is
  exact when a user has one transaction at a time (`LedgerIsExact`), and off by exactly what stale commits
  undid otherwise (`LedgerIsOffByUndone`).
- A refund whose answer is lost, or whose task then cannot be saved as FAILED, leaves the books wrong
  (`ConservedIff`, `ConservedIffNotTorn`): it is paid again, or never recorded (`TornFailurePaysTwice`,
  `UnansweredRefundIsForgotten`).
- COMPLETED is left exactly when the chain service marks the tasks of a failed chain: the second step fails and
  the first, long done, becomes FAILED (`TerminalStatesHold`, `CompletedCanBeLeftIff`, `CompletedStays`,
  `CompletionIsUndone`).
- A task that an executor saves as FAILED itself, without `FailTask`, is never paid back (`DirectFailureForfeits`).
- A failed chain task can be paid back more than the whole chain cost (`ChainFailureWithinChargeIff`): a
  first step that was paid for always, one that was free for a member when its listed price adds a whole
  credit somewhere (`FirstStepWithinChargeIff`), a second step unless every share rounds to nothing
  (`SecondStepPaysOverIffShare`) or, with the fallback, it had no cost stored (`FallbackWithinChargeIff`). Every
  further failure of a retried task pays the share again (`FailureRunTotal`, `EnoughFailuresPayOver`). With the
  fallback a free first step that fails gives nothing of the charge back (`FirstStepFallbackIff`).
- An allowance can be exceeded after a rebuild exactly when a rollback is still pending
  (`OvergrantIffRollbackPending`).
- A dot in a project id is a wildcard of the rebuild script and ? * + - repeat the byte before them, so the
  script reaches other projects and, over their colon, shorter ones; it spares all others exactly for ids with
  neither (`DoomedIff`, `SparesOthersIffLiteral`, `DotMatchesColon`). An id that does not match itself keeps
  the entries of users that left (`RebuildIsExact`, `HyphenMissesItself`).
- The popup limiter is right when scripts run in the order of their seconds and none runs on an expired key
  with a second still in the last grant's window. Without the second condition the cap can break exactly
  when it is below the window (`LateRunsBreakCapIff`), one call exactly when the expired window was full
  (`WrongAnswerIff`); without the first it can break exactly from two grants on (`OutOfOrderBreaksCapIff`)
  and calls with an empty window are denied for every configuration (`OutOfOrderDenies`).
- The stream marshaler takes plain JSON such as `true` for an encoded request (`PassesUnchangedIff`,
  `AlphabetWordIsGarbled`), and refuses an encoded request with blanks around it (`RefusedIffSpace`).
- An error of the check before a submit can leave its slot taken (`EndsLeakedIff`, `LostAnswerLeaks`), until the
  keys expire (`LeakedUntilExpiry`). The comment above the function says such an error rolls the slot back.
- An underscore in a project id lets two users share a source id (`SameSourceIff`, `SourceClash`).
- A removed chat participant can never be added again (`RemovedForGood`).
- The -1 of a failed task is overwritten by a ramp that still runs (`FailureMarkStaysIff`).

## Model

| member | source | states |
|---|---|---|
| `LeaseStore.DistributedLockManager.SetRenewalTTL` | internal/common/distributed_lock.go:45-49 | only a positive TTL replaces the old one |
| `LeaseStore.DistributedLockManager.AcquireLock` | internal/common/distributed_lock.go:52-74 | succeeds exactly when the key was free, then holds with its own token; a failure to acquire changes nothing; a lost answer may leave a lock nobody knows |
| `LeaseStore.DistributedLockManager.ReleaseLock` | internal/common/distributed_lock.go:77-109 | deletes exactly the entry with this token, and says whether it did |
| `LeaseStore.DistributedLockManager.StartRenewal` | internal/common/distributed_lock.go:112-127 | the loop starts exactly when the token still holds the key |
| `LeaseStore.DistributedLockManager.RenewalTick` | internal/common/distributed_lock.go:130-160 | extends exactly the entry with this token to whole seconds from now; stops exactly when told the token is gone |
| `LeaseStore.HeldForTTL` | internal/common/distributed_lock.go:57 | a lock taken on a free key is held exactly for the whole milliseconds of its TTL, for ever with a TTL of zero; below one millisecond nothing is taken |
| `LeaseStore.LockKeysDiffer` | internal/common/distributed_lock.go:53 | two resources have two keys |
| `LeaseRuns.RunKeepsInv` | internal/common/distributed_lock.go:52-175 | over every interleaving, the recorded tenures and the keyspace agree, and tenures of one key follow each other |
| `LeaseRuns.HoldingIsTenure` | internal/common/distributed_lock.go:52-175 | a token is what GET answers exactly during its tenure on that key |
| `LeaseRuns.LeasesAreDisjoint` | internal/common/distributed_lock.go:52-175 | no two grants of one resource overlap at any instant, in any run of acquires, releases, ticks and expiries |
| `LeaseRuns.OtherTokensUntouched` | internal/common/distributed_lock.go:81-86 | a release or tick with one token leaves every entry with another token as it is |
| `LeaseRuns.LostForGood` | internal/common/distributed_lock.go:112-172 | a drawn token that does not hold the key never holds it again |
| `LeaseRuns.LostLoopCanOnlyStop` | internal/common/distributed_lock.go:130-160 | after a loss the loop changes no entry, stops when it fires and cannot be started again |
| `LeaseRuns.NoInterleavedHolder` | internal/common/distributed_lock.go:52-109 | between two instants at which one token holds a key no other token holds it |
| `LeaseRuns.LeaseRunsOut` | internal/common/distributed_lock.go:52-74 | a holder that neither renews nor releases has the lock exactly for the whole milliseconds of its TTL, in every run of everybody else |
| `LeaseRuns.NextClientGetsInIff` | internal/common/distributed_lock.go:52-74 | and from that moment on, not earlier, another client gets it, when nobody tried in between |
| `LeaseRuns.StoppedLoopIsSilent` | internal/common/distributed_lock.go:162-172 | a loop told to stop does not tick again in any run in which it is not started again |
| `LeaseRenewal.RenewalKeepsLock` | internal/common/distributed_lock.go:130-160 | if the lease outlives the first tick and ticks are on time, a renewal TTL of at least a second keeps the lock through every run, and every other SET NX changes nothing |
| `LeaseRenewal.ShortRenewalDropsLock` | internal/common/distributed_lock.go:131-145 | below one second the first tick on time removes the lock |
| `LeaseRenewal.RenewalWorksIffOneSecond` | internal/common/distributed_lock.go:131-145 | a renewal TTL protects the lock in all runs on time exactly when it is at least one second |
| `LeaseRenewal.SurvivesMissesIff` | internal/common/distributed_lock.go:131-151 | a renewal TTL protects the lock through m ticks missed in a row, in all runs, exactly when its whole seconds are longer than m + 1 periods of the running loop, whatever that period is |
| `LeaseRenewal.MissesDropLock` | internal/common/distributed_lock.go:131-151 | otherwise there is a run in which the lock is gone after the m-th miss |
| `LeaseRenewal.OneMissIff` | internal/common/distributed_lock.go:131-151 | one missed tick is survived from one second on except from 1.5 up to 2 seconds |
| `LeaseRenewal.DefaultSurvivesOneMiss` | internal/common/distributed_lock.go:36-42 | the default of thirty seconds survives one missed tick in a row and no more |
| `LeaseRenewal.ChangedTTLIff` | internal/common/distributed_lock.go:45-49 | a renewal TTL set while a loop runs keeps its lock exactly when the new whole seconds are longer than a third of the TTL the loop started with |
| `Credits.CreditService.DeductCreditsWithTx` | internal/service/credit/service.go:116-129 | decides on the rows the transaction read and saves those whole, or leaves rows and journal alone; the journal stays exact if the rows are still as read |
| `Credits.CreditService.DeductCreditsForMember` | internal/service/credit/service.go:132-152 | a member pays from everything but daily credits, all or nothing |
| `Credits.CreditService.DeductCreditsForNonMember` | internal/service/credit/service.go:155-221 | daily credits alone if they suffice, else the other kinds alone, else nothing |
| `Credits.CreditService.PerformDeduction` | internal/service/credit/service.go:224-262 | drains the rows as read in the given order, saves each whole over whatever is there, and returns what it took |
| `Credits.CreditService.Record` | internal/service/credit/service.go:237-258 | a saved row and its journal line: the line states the new balance always, and the journal stays exact exactly when the row was still as read |
| `Credits.CreditService.RefundCredits` | internal/service/credit/service.go:312-376 | adds every record to its row as read and saves it whole, skipping rows not found; nothing for an empty record |
| `Credits.FreshSpent` | internal/dao/credit.go:41-57 | on rows that are still as read, the absolute saves of a charge are the plain difference |
| `Credits.FreshRepaid` | internal/dao/credit.go:144-152 | and those of a refund the plain sum |
| `Credits.DeductionIsSound` | internal/service/credit/service.go:116-262 | a deduction is possible exactly when the pool covers it; its records are positive, within their rows and add up to the charge; members never pay with daily credits and others never mix them |
| `Credits.DeductionChoosesRows` | internal/service/credit/service.go:132-221 | with totals over sets of rows, in no order: a member pays from all rows but the daily ones; another user from the daily ones exactly when these cover the amount, else from the paid kinds; and a deduction is possible exactly when that covers it |
| `Credits.DeductionDrainsInOrder` | internal/service/credit/service.go:163-262 | a row is touched only when every row before it was emptied: purchased, then membership, then event credits, and inside a kind the order of the list |
| `Credits.SoonestExpiryFirst` | internal/dao/credit.go:41-48 | on what the query returned only unexpired rows of project and user are charged, and of two rows of a kind the one that expires first is emptied first |
| `Credits.TakeSum` | internal/service/credit/service.go:224-262 | the records add up to the charge, or to all there is |
| `Credits.TakeDrainsInOrder` | internal/service/credit/service.go:228-243 | a later row is touched only when every earlier one was drained |
| `Credits.TakeStaysInside` | internal/service/credit/service.go:233-243 | only listed rows are touched, each by at most what it holds |
| `Credits.RefundUndoesDeduction` | internal/service/credit/service.go:224-376 | refunding the records of a deduction restores the whole table |
| `Credits.MoreTotal` | internal/service/credit/service.go:345-356 | a refund on fresh rows raises the balance by the sum of its records |
| `Credits.LessTotal` | internal/service/credit/service.go:233-243 | a deduction on fresh rows lowers the balance by the sum of its records |
| `Credits.LineExplainsIff` | internal/service/credit/service.go:245-258 | a journal line explains the change of its row exactly when the row was still as read |
| `PictureTasks.PictureTaskService.BeginTransaction` | internal/dao/credit.go:41-48 | the read step: the transaction keeps the rows as they are now |
| `PictureTasks.PictureTaskService.SubmitTask` | internal/api/picture_forge.go:328-374 | the commit of a transaction that read earlier: charge and task appear together or not at all, also when the answer is lost |
| `PictureTasks.PictureTaskService.ChargeAndSave` | internal/service/picture_task.go:1695-1733 | deduct, write the task with the record, commit: which of the three errors leaves what behind |
| `PictureTasks.PictureTaskService.PayBack` | internal/service/picture_task.go:1821-1833 | pays the stored record back when there was a cost and no refund yet, unless it does not take effect; it is told so only when the answer arrives |
| `PictureTasks.PictureTaskService.FailTask` | internal/service/picture_task.go:1782-1865 | one step of the lifecycle: terminal tasks are left alone, others become FAILED, with every outcome of the refund and of the save |
| `PictureTasks.PictureTaskService.RetryFailedTask` | internal/service/picture_task.go:1647-1738 | FAILED with permission becomes PENDING with a new charge, or nothing changes, or it does with its answer lost |
| `PictureTasks.PictureTaskService.CreateChainWithAllTasks` | internal/service/task_chain_service.go:170-213 | the chain names its two tasks as partners |
| `PictureTasks.PictureTaskService.NotifyChainFailure` | internal/service/task_chain_service.go:613-657 | one task that is due is marked FAILED, whatever its status |
| `TaskLifecycle.ChargeIsSound` | internal/service/picture_task.go:1695-1713 | a charge is nothing for a cost of zero or less, else records that add up to the cost |
| `TaskCharges.SubmitCharges` | internal/service/credit/image_pricing.go:5-13 | a submit costs its price, or nothing for an image when images are free for all or the user is a member; the task is created exactly when the commit takes effect and that can be paid; its fields, and an attempt whose records add up to the cost |
| `TaskCharges.RetryCharges` | internal/service/picture_task.go:1670-1733 | a retry costs what is stored, or nothing for an image while images are free for all, whether or not the user is a member; exactly when it restarts the task and with which fields |
| `TaskRefunds.FreshSubmitPays` | internal/api/picture_forge.go:328-374 | on fresh rows a committed submit takes exactly that from the balance |
| `TaskRuns.NextKeepsInv` | internal/service/picture_task.go:1647-1865 | every step, overlaps and faults included, keeps the stored record of a task equal to its running attempt, its sum to the stored cost, its rows those of the user, and every row non-negative |
| `TaskLedger.StepDrift` | internal/dao/credit.go:41-57 | in any step a row goes off its ledger value by exactly what the commit undoes of others |
| `TaskLedger.LedgerIsOffByUndone` | internal/service/picture_task.go:1647-1865 | in every run, with any overlap and fault, each row is the opening one less what attempts still hold plus what stale commits undid |
| `TaskLedger.AccountedIffFresh` | internal/dao/credit.go:41-57 | a commit keeps rows and balance accounted for exactly when no row it writes changed since its transaction read it |
| `TaskLedger.FreshCommitChanges` | internal/dao/credit.go:41-57 | what a commit on a fresh row changes for the transactions that read it before: its whole charge or refund, never nothing |
| `TaskLedger.TwoSubmitsPayOnce` | internal/api/picture_forge.go:337-374 | two submits of one user that overlap: x and y are charged, the row of a ends at a - y |
| `TaskLedger.LedgerIsExact` | internal/service/picture_task.go:1647-1865 | the serial corollary: with one transaction at a time for each user, every row and the balance are the opening ones less what attempts still hold, in every run and with every other fault |
| `TaskRefunds.CleanRunConserves` | internal/service/picture_task.go:1782-1865 | the serial corollary without torn failures: balance plus unrefunded charges is the opening balance, no attempt is refunded twice, and a refunded task is FAILED |
| `TaskRefunds.FailurePaysIff` | internal/service/picture_task.go:1814-1833 | on fresh rows a failure adds the stored cost to the balance exactly when the task was not terminal, had a cost and no refund, and the refund takes effect; nothing otherwise |
| `TaskRefunds.FailureMarksIff` | internal/service/picture_task.go:1814-1850 | the task is FAILED exactly when it was not terminal and the save takes effect, and marked as refunded exactly when the refund was due and answered |
| `TaskRefunds.OnlyTornFailuresUnsettle` | internal/service/picture_task.go:1821-1850 | a step makes marks and refunds disagree exactly when a refund took effect and its answer or the saved task did not follow |
| `TaskRefunds.ConservedIff` | internal/service/picture_task.go:1782-1865 | rows, balance and marks are all right after a step exactly when its rows were fresh and it is no such failure |
| `TaskRefunds.ConservedIffNotTorn` | internal/service/picture_task.go:1821-1850 | on fresh rows a step keeps balance plus unrefunded charges exactly when it is no such failure |
| `TaskRefunds.TornFailurePaysTwice` | internal/service/picture_task.go:1835-1850 | a refund whose task is not saved is paid again by the next failure |
| `TaskRefunds.UnansweredRefundIsForgotten` | internal/service/picture_task.go:1825-1837 | a refund whose answer is lost is paid, and the task ends FAILED and unmarked |
| `TaskStatuses.TerminalStatesHold` | internal/service/task_chain_service.go:613-657 | a COMPLETED task changes exactly when its chain's failure notification marks it, a FAILED one exactly by a retry that is allowed, can be charged and commits |
| `TaskStatuses.NoticeIff` | internal/service/task_chain_service.go:410-460 | a task is due to be marked exactly from a saved failure of a task of its chain until it is marked |
| `TaskStatuses.CompletedCanBeLeftIff` | internal/service/task_chain_service.go:613-657 | whether any step at all can change a COMPLETED task is whether it is due to be marked |
| `TaskStatuses.CompletedStays` | internal/service/task_chain_service.go:613-657 | in every run without a failure in its chain a COMPLETED task stays as it is |
| `TaskStatuses.FailureUndoesCompletion` | internal/service/picture_task.go:1859-1861 | in any state, the failure of the second step of a chain makes its COMPLETED first step due to be marked FAILED |
| `TaskStatuses.CompletionIsUndone` | internal/service/task_chain_service.go:613-657 | a whole run from the start in which that happens |
| `TaskStatuses.OldAttemptsAreFrozen` | internal/service/picture_task.go:1722-1725 | once a retry has replaced an attempt, or its task is FAILED, its charge is never refunded any more, in any run |
| `TaskStatuses.DirectFailureForfeits` | internal/service/picture_generate/gpt4o_image2image_executor.go:309-314 | a task that an executor saves as FAILED itself keeps its charge through every run |
| `ChainRefund.CalculatePartialRefundInfo` | internal/service/picture_task.go:2108-2127 | the loop, in any order of the map, keeps the positive shares, rounded down |
| `ChainRefund.PartialRefundBounds` | internal/service/picture_task.go:2108-2127 | shares of an amount out of the whole charge sum to at most it and fall short by less than one credit a record |
| `ChainRefund.SecondStepRefundBounds` | internal/service/picture_task.go:2030-2127 | with the ratio clipped at 1, no record exceeds its original and min(s,T) - n < R <= min(s,T) |
| `ChainRefund.FallbackRefundBounds` | internal/service/picture_task.go:2030-2106 | from the price of the second step to its refund: nothing for a configured price of zero, the price up to the charge otherwise, half the charge when there is none, each within n credits |
| `ChainRefund.PartialWithinChargeIff` | internal/service/task_chain_service.go:580-610 | with the ratio not clipped, a refund stays within the charge exactly when its amount does or its excess adds no whole credit to any record |
| `ChainRefund.ChainFailureWithinChargeIff` | internal/service/task_chain_service.go:410-611 | when the refund of a failed chain task and the one of its chain together stay within the charge, for any stored cost and any listed prices |
| `ChainRefund.FirstStepWithinChargeIff` | internal/api/picture_forge.go:1354-1359 | the first step, paid for or free for a member: exactly when nothing was paid for it and its listed price adds no whole credit to any record |
| `ChainRefund.FirstStepFailurePaysTwice` | internal/service/task_chain_service.go:519-528 | a first step that was paid for: every record comes back twice |
| `ChainRefund.FreeFirstStepOverpays` | internal/service/task_chain_service.go:519-528 | a first step that was free: 10 charged and 20 refunded |
| `ChainRefund.SecondStepPaysOverIffShare` | internal/service/task_chain_service.go:529-537 | the second step with the chain service, at any price: exactly when every share rounds to nothing |
| `ChainRefund.FallbackWithinChargeIff` | internal/service/picture_task.go:2030-2127 | the second step with the fallback, for any stored cost and any price: exactly when nothing is stored or every share rounds to nothing |
| `ChainRefund.FirstStepFallbackIff` | internal/service/picture_task.go:2011-2017 | the first step with the fallback: the charge comes back exactly when the step had a cost stored, and nothing of it otherwise |
| `ChainRefund.FailureRunTotal` | internal/service/task_chain_service.go:410-460 | over any number of retries that fail, the chain pays one more share of the original charge each time |
| `ChainRefund.EnoughFailuresPayOver` | internal/service/task_chain_service.go:410-460 | with as many such retries as credits were charged, more than the charge comes back exactly when the listed price gives any record a share |
| `TaskProgress.PictureTaskDao.UpdateTaskProgressIfHigher` | internal/dao/picture_task.go:83-95 | writes exactly an existing row with a lower value, and says whether it did |
| `TaskProgress.TicksOnlyRaise` | internal/service/picture_generate/progress.go:86-120 | between saves the column never falls and the ramp never takes it past 94 |
| `TaskProgress.LateSaveStays` | internal/service/picture_generate/progress.go:98-114 | a save at or past the ramp's maximum stays |
| `TaskProgress.StoppedStays` | internal/service/picture_generate/progress.go:95-114 | a ramp that stopped writes nothing any more |
| `TaskProgress.FailureMarkStaysIff` | internal/service/picture_task.go:1835-1838 | the -1 of a failed task survives a whole run of ticks exactly when there is none, or the ramp is stopped, at its maximum, or fails at its first |
| `TaskProgress.RampClimbs` | internal/service/picture_generate/progress.go:86-120 | left alone the ramp climbs by one a tick up to 94 and stays there |
| `QueueSlots.ReleaseUndoesReserveIff` | internal/service/quota/task_quota_scripts.go:15-56 | releasing undoes a reservation exactly for an id that was not there |
| `QueueSlots.ReleaseTwice` | internal/service/quota/task_quota_scripts.go:35-56 | a second release changes nothing, and no release takes the counter below zero |
| `QueueSlots.CounterCountsTasks` | internal/service/quota/task_quota_scripts.go:15-56 | in every run of reservations of ids not held, releases and expiries the counter is the number of ids held and within the largest limit |
| `QueueSlots.TaskQuotaChecker.CheckAndReserveQueueSlot` | internal/service/quota/task_quota_checker.go:54-88 | when the reservation is in Redis, when the answer is that the queue is full, and when the degraded mode starts, with every fault and the fallback to the table |
| `QueueSlots.TaskQuotaChecker.ReleaseQueueSlot` | internal/service/quota/task_quota_checker.go:264-287 | releases unless degraded or the command does not take effect |
| `QueueSlots.TaskQuotaChecker.ReserveQueueSlot` | internal/service/picture_task.go:786-794 | only a full queue stops the submit; other errors leave it to the table |
| `QueueSlots.TaskQuotaChecker.VerifyQueueSizeWithDB` | internal/service/picture_task.go:797-809 | the verdict of the table, and the release on an error |
| `QueueSlots.TaskQuotaChecker.CheckActiveTasks` | internal/service/picture_task.go:827-854 | the whole check, with whatever the user's other requests do between reserving and releasing; no other user's slots are touched |
| `QueueSlots.ActiveIsUnfinished` | internal/dao/picture_task.go:249-268 | the four statuses counted are all unfinished ones but the wait for an earlier chain step |
| `QueueSlots.CountOneMore` | internal/dao/picture_task.go:249-268 | one more task adds one to the count exactly when it is of this user and in one of the four statuses |
| `QueueSlots.CountNone` | internal/dao/picture_task.go:249-268 | and without tasks it is zero, which fixes it for every table |
| `QueueSlots.AskStopsIff` | internal/service/quota/task_quota_checker.go:54-88 | when the first check stops a request: Redis says the queue is full, or Redis is known to be gone, already or by this call, and the table says so |
| `QueueSlots.TallyIff` | internal/service/picture_task.go:797-809 | a counted request is accepted exactly below its limit, else it releases with the error of the count or of the limit |
| `QueueSlots.HeldIsAccountedFor` | internal/service/picture_task.go:786-870 | in every run of many requests, with every fault, the ids held are those being checked, accepted and not finished, or leaked, the counter is their number, and whoever was accepted saw fewer active tasks than its limit |
| `QueueSlots.OthersUntouched` | internal/service/quota/task_quota_scripts.go:35-56 | no step of one request, its error return included, touches another id or request |
| `QueueSlots.EndsLeakedIff` | internal/service/picture_task.go:786-809 | a request that ends keeps its slot exactly when its reservation's answer was lost and the table was full, or its release is skipped or does not arrive |
| `QueueSlots.LostAnswerLeaks` | internal/service/quota/task_quota_checker.go:54-88 | such a run for every limit: a lost answer and a full table give the queue-limit error and leave the id held |
| `QueueSlots.HealthyRunsLeakNothing` | internal/service/picture_task.go:786-854 | with Redis answering, in every interleaving the ids held are exactly the requests being checked or accepted, so every error return has given its slot back |
| `QueueSlots.LeakedUntilExpiry` | internal/service/quota/task_quota_scripts.go:26-29 | a leaked slot stays through every run until the keys expire |
| `QueueSlots.RequestsRunScripts` | internal/service/quota/task_quota_checker.go:54-88 | what interleaved requests do to Redis is a run of the two scripts that never reserves an id it holds |
| `QueueSlots.NeverOverTheLimit` | internal/service/quota/task_quota_scripts.go:21-24 | so no run of requests takes more slots than the largest limit |
| `QuotaCounter.UserAmountDao.DecrUserAmount` | internal/dao/user_amount.go:104-144 | a call alone is the steps of the machine on its own field: empty ids, the lock, the decrement, the rollback and their faults; the locks are afterwards what they were |
| `QuotaCounter.StepKeepsBase` | internal/dao/user_amount.go:130-138 | counter plus units taken is the same before and after each single command |
| `QuotaCounter.CountersAddUp` | internal/dao/user_amount.go:104-144 | in every interleaving without any lock: counter = start - granted - rolling back - lost; granted never exceeds the start; nobody is refused before it is used up; with nothing pending the counter is not negative |
| `QuotaCounter.ExactlyTheAllowance` | internal/dao/user_amount.go:104-144 | when all calls were answered the number granted is min(calls, start) and the counter is the rest |
| `QuotaCounter.PendingRollbacksBoundGrants` | internal/dao/user_amount.go:136-140 | from any state, grants exceed the counter by at most the rollbacks pending |
| `QuotaCounter.GrantableIff` | internal/dao/user_amount.go:130-143 | from any state, some run grants m more calls exactly when there are m fresh ones and the counter with all pending rollbacks covers them |
| `QuotaCounter.OvergrantIffRollbackPending` | internal/dao/user_amount.go:136-140 | an allowance as a rebuild leaves it can be exceeded exactly when a rollback is still pending |
| `QuotaCounter.ResetThenRollbackGrantsTwo` | internal/dao/user_amount.go:136-140 | the smallest instance: an allowance of one grants two |
| `QuotaCounter.SoloIsTestAndDecrement` | internal/dao/user_amount.go:129-143 | alone, a call is granted exactly when a unit was there, and a refusal leaves the counter alone |
| `DailyAllowance.CallTakesUnit` | internal/dao/user_amount.go:122-143 | a text call is granted exactly when the text entry of its user is positive, and takes one from it; an image call the image entry; no other entry changes |
| `DailyAllowance.FaultyCallTakesUnit` | internal/dao/user_amount.go:129-140 | with faults: an unanswered decrement is an error and takes one exactly when it took effect; a refusal whose rollback fails takes one |
| `DailyAllowance.LocksDiffer` | internal/dao/user_amount.go:111 | two users have two locks |
| `DailyAllowance.AllowanceAfterRebuild` | internal/dao/user_amount.go:202-222 | after a rebuild, in every interleaving of answered calls, as many are granted as project, list and chat kind allow: 300000 for subscribers, 30000 texts and 3 images for others; for com.bluex.dietai 30000, but one text for others |
| `DailyAllowance.NoAllowanceOnceGone` | internal/dao/user_amount.go:189-200 | and none for a user in neither list |
| `QuotaRebuild.AmountHash.Build` | internal/dao/user_amount.go:185-187 | the valid users are the union, and the second list wins |
| `QuotaRebuild.AmountHash.DeleteInvalid` | internal/dao/user_amount.go:189-200 | removes exactly the entries that match the pattern without a valid captured user, and counts them |
| `QuotaRebuild.AmountHash.SetTier` | internal/dao/user_amount.go:202-222 | writes the two entries of one user with the tier of project and list |
| `QuotaRebuild.AmountHash.Update` | internal/dao/user_amount.go:147-227 | the whole hash afterwards, key by key; updated is twice the number of valid users; deleted is the number of entries removed |
| `QuotaRebuild.RebuildIsExact` | internal/dao/user_amount.go:185-224 | with deletion, a user has an entry afterwards exactly when in the union, or when it had one that the id, as a pattern, does not find; the tier is that of the list, non-subscriber first |
| `QuotaRebuild.PlainRebuildIsExact` | internal/dao/user_amount.go:185-224 | for an id without repetitions: exactly when in the union |
| `QuotaRebuild.PlainMatches` | internal/dao/user_amount.go:192-194 | without repetitions the matcher compares byte by byte, the dot with anything |
| `QuotaRebuild.ByteMatchesIff` | internal/dao/user_amount.go:192-194 | a byte of the id without a repetition stands for one byte |
| `QuotaRebuild.RepetitionMatchesIff` | internal/dao/user_amount.go:192-194 | a byte with one stands for at most one (?), at least one (+) or any number (* -) of them |
| `QuotaRebuild.DoomedIff` | internal/dao/user_amount.go:192-194 | which entries the deleting pass removes, for ids with dots and repetitions: those whose project, or project and user together, match; but not those of a listed user when some end of the project matches |
| `QuotaRebuild.DotMatchesColon` | internal/dao/user_amount.go:192-194 | every dot inside an id deletes the entries of the user named behind it in the project named before it, whoever is listed |
| `QuotaRebuild.HyphenMissesItself` | internal/dao/user_amount.go:192-194 | project "a-b" deletes the entries of project "b" and never its own |
| `QuotaRebuild.RebuildOfOthers` | internal/dao/user_amount.go:189-224 | entries of every other project keep their value, and go exactly when deletion is on and the pattern reaches them |
| `QuotaRebuild.LiteralRebuildSparesOthers` | internal/dao/user_amount.go:189-224 | for an id without dots and repetitions the entries of every other project, of any length, keep presence and value |
| `QuotaRebuild.DoomedLiteral` | internal/dao/user_amount.go:192-194 | for an id without dots and repetitions only its own entries of invalid users go |
| `QuotaRebuild.SparesOthersIffLiteral` | internal/dao/user_amount.go:192-194 | other projects are safe exactly when the id has no dot and, behind its first byte, none of ? * + - |
| `QuotaRebuild.RebuildTwice` | internal/dao/user_amount.go:147-227 | rebuilding again with the same lists changes nothing |
| `PopupLimiter.ConfigService.ShouldPopSubscribe` | internal/service/config.go:104-176 | the error and the disabled case touch nothing; otherwise the answer and the key are those of the script, run at any time after its second was read |
| `PopupLimiter.RunTracks` | internal/service/config.go:115-141 | after every ordered and timely run the key holds exactly the grants of the current window |
| `PopupLimiter.WindowsAreCapped` | internal/service/config.go:115-141 | then no window of the configured length, wherever it ends, holds more than the maximum of granted seconds |
| `PopupLimiter.DeniedIffWindowFull` | internal/service/config.go:121-132 | then a call is denied exactly when the maximum of granted seconds lies in its window |
| `PopupLimiter.ExpiryNeverMatters` | internal/service/config.go:126-128 | then the limiter answers as one without EXPIRE does |
| `PopupLimiter.InstantCallsAreTimely` | internal/service/config.go:136-141 | scripts that run when their second is read meet both conditions, whatever the skew and although seconds are truncated |
| `PopupLimiter.KeysDiffer` | internal/service/config.go:112 | two users have two keys |
| `PopupLimiter.ShownAgainAfterWindow` | internal/service/config.go:121-132 | with a cap of one the next call is shown exactly from the second of the grant plus the window on |
| `PopupLimiter.WrongAnswerIff` | internal/service/config.go:121-132 | a call on a key that holds its window is answered wrongly exactly when the key has expired under a full window |
| `PopupLimiter.LateCallBreaksCap` | internal/service/config.go:136-141 | for every cap below the window: a late script in an ordered run breaks the cap |
| `PopupLimiter.LateRunsBreakCapIff` | internal/service/config.go:136-141 | late scripts in ordered runs can break the cap exactly when it is below the window |
| `PopupLimiter.OutOfOrderDenies` | internal/service/config.go:121-132 | for every window and cap: a timely run out of order denies a call whose window is empty |
| `PopupLimiter.OutOfOrderBreaksCapIff` | internal/service/config.go:121-132 | timely runs out of order can break the cap exactly when it is at least two and below the window |
| `Codec.CryptoMarshaler.Encrypt` | internal/common/grpc_gateway_marshal.go:127-133 | the indexed loop is XOR with the repeating key |
| `Codec.CryptoMarshaler.Marshal` | internal/common/grpc_gateway_marshal.go:139-157 | trims, encrypts and encodes |
| `Codec.CryptoMarshaler.Unmarshal` | internal/common/grpc_gateway_marshal.go:159-170 | decodes and decrypts, or reports corrupt input |
| `Codec.CryptUndo` | internal/common/grpc_gateway_marshal.go:127-137 | encrypting twice is the identity, for every length and key |
| `Codec.XorBit` | internal/common/grpc_gateway_marshal.go:130 | a bit of the result is set exactly when the two bits differ |
| `Codec.CryptFlipsKeyBits` | internal/common/grpc_gateway_marshal.go:127-133 | encryption flips exactly the bits of byte i that are set in the key byte at i modulo the key length |
| `Codec.DecodeUndoesEncode` | internal/common/grpc_gateway_marshal.go:156-161 | Base64 decoding undoes encoding, for every length, through the padding |
| `Codec.EncodeLength` | internal/common/grpc_gateway_marshal.go:156 | four characters for every three bytes begun |
| `Codec.EncodeGroup` | internal/common/grpc_gateway_marshal.go:156 | group by group: the 24 bits of three bytes are those of four letters of the standard alphabet, with padding for missing bytes |
| `Codec.DecodesIff` | internal/common/grpc_gateway_marshal.go:161 | line breaks aside, exactly whole groups of letters decode, with at most two paddings at the very end |
| `Codec.TrimSpaceIs` | internal/common/grpc_gateway_marshal.go:318 | trimming takes white space off both ends and nothing else |
| `Codec.CryptoRoundTrip` | internal/common/grpc_gateway_marshal.go:139-170 | what the encrypting marshaler writes, it reads back |
| `Codec.EncryptedRequestsAreRead` | internal/common/grpc_gateway_marshal.go:74-79 | so does the multi marshaler whichever path the shared current request names, so an encrypted request survives a mix-up |
| `Codec.PlainJsonPasses` | internal/common/grpc_gateway_marshal.go:317-329 | plain JSON that starts with a byte outside the alphabet, as objects, arrays and strings do, passes unchanged |
| `Codec.PassesUnchangedIff` | internal/common/grpc_gateway_marshal.go:253-264 | bytes pass unchanged exactly when, trimmed, they are empty or no well-formed Base64 |
| `Codec.AlphabetWordIsGarbled` | internal/common/grpc_gateway_marshal.go:317-329 | a plain word of the alphabet whose length is a multiple of four is garbled |
| `Codec.TrueIsGarbled` | internal/common/grpc_gateway_marshal.go:317-329 | the JSON literal true is one |
| `Codec.RefusedIffSpace` | internal/common/grpc_gateway_marshal.go:253-261 | an encoded request is refused exactly when it carries white space other than line breaks |
| `VirtualId.ParseUndoesPrint` | internal/service/picture_task.go:1176-1187 | every model name, empty or with underscores, comes back behind any underscore-free suffix |
| `VirtualId.FormatErrorUnreachable` | internal/service/picture_task.go:1180-1184 | the format error cannot happen for an id with the prefix |
| `VirtualId.PrintUndoesParseIff` | internal/api/picture_forge.go:110 | printing what was parsed gives the id back exactly when it has an underscore behind the prefix |
| `Grants.DailyFreeCreditsService.AddCredits` | internal/service/credit/service.go:277-309 | one row under the unique source id or none, with each fault |
| `Grants.DailyFreeCreditsService.CheckAndGrantDailyCredits` | internal/service/daily_free_credits_service.go:43-110 | the early exits, and the insert under the printed source id |
| `Grants.DailyFreeCreditsService.CheckAndGrantDailyCreditsWithTx` | internal/service/daily_free_credits_service.go:113-157 | the same inside a transaction of the caller that may roll back |
| `Grants.DailyFreeCreditsService.GrantRegisterBonus` | internal/service/daily_free_credits_service.go:161-204 | the bonus of five under its own source id |
| `Grants.Amount` | internal/service/daily_free_credits_service.go:234-252 | the configured amount falls back to thirty, so the check for a non-positive amount never exits |
| `Grants.GrantedAmount` | internal/service/daily_free_credits_service.go:234-252 | a granted call grants the configured amount if positive, else thirty, and a bonus five; the row holds that |
| `Grants.GrantedIff` | internal/service/daily_free_credits_service.go:43-110 | a grant is reported exactly when the user is no member, grants are on, the source is new and nothing failed |
| `Grants.NotGrantedIff` | internal/service/daily_free_credits_service.go:43-157 | when a call ends without grant and without error, and that it then leaves no row |
| `Grants.FailedLeavesRowIff` | internal/service/credit/service.go:277-309 | an error leaves a row exactly when the own commit lost its answer, or the caller commits in spite of the failed journal line |
| `Grants.SameSourceIff` | internal/service/daily_free_credits_service.go:72 | when two source ids are equal, exactly; daily and bonus ids never are |
| `Grants.SourceNamesKey` | internal/service/daily_free_credits_service.go:168 | with underscore-free project ids a source id names project, user and day |
| `Grants.SourceClash` | internal/service/daily_free_credits_service.go:72 | with an underscore in a project id two users share one |
| `Grants.GrantedAtMostOnce` | internal/service/daily_free_credits_service.go:43-204 | over any sequence of calls no project, user and day, and no project and user, is reported granted twice, unless the caller rolled back |
| `Grants.GrantedIffFirst` | internal/service/daily_free_credits_service.go:78-96 | a call that may be granted is, exactly when its own project, user and day has no row yet |
| `Grants.ExactlyOneRow` | internal/model/amount.go:14 | after such a call there is exactly one row for its project, user and day |
| `ChatParticipants.ChatParticipantDao.AddParticipants` | internal/dao/chat_participant.go:21-30 | inserts one after the other, doing nothing where the key has a row |
| `ChatParticipants.ChatParticipantDao.RemoveParticipant` | internal/dao/chat_participant.go:33-39 | marks the rows of the key as deleted and nothing else |
| `ChatParticipants.ChatParticipantDao.GetCommonChatIDs` | internal/dao/chat_participant.go:66-97 | the clause built in the loop, grouped and counted, is the counting query |
| `ChatParticipants.InsertEffect` | internal/model/chat_participant.go:17-19 | adding makes a member exactly when the key never had a row, and keeps the index |
| `ChatParticipants.AddEffect` | internal/dao/chat_participant.go:21-30 | a batch makes members exactly of those listed whose key never had a row, and keeps the index |
| `ChatParticipants.RemoveEffect` | internal/model/chat_participant.go:16-19 | removing ends one membership, keeps the others and keeps the row in the index |
| `ChatParticipants.RunKeepsUnique` | internal/model/chat_participant.go:17-19 | every run of additions and removals keeps the unique index |
| `ChatParticipants.RemovedForGood` | internal/dao/chat_participant.go:21-39 | who was removed is not a member again in any run |
| `ChatParticipants.CountMembers` | internal/dao/chat_participant.go:84 | under the index COUNT(*) is the number of listed members |
| `ChatParticipants.CommonIff` | internal/dao/chat_participant.go:66-97 | a chat is returned exactly when all listed are members and nobody is listed twice |
| `MsgHistory.Reverse` | internal/service/message.go:175 | in-place reversal |
| `MsgHistory.GetMsgHistory` | internal/service/message.go:170-204 | the loop with reset is the suffix from the last media message on; the loop in lines 270-297 is the same |
| `MsgHistory.HistoryIsSuffix` | internal/service/message.go:176-203 | entry by entry: sender and the copied fields; only the first can carry URLs, exactly when that message is media and among the last twenty |
| `MsgHistory.StartIs` | internal/service/message.go:187-189 | the history starts at the last message of the user that is no text and carries URLs |
| `MsgHistory.UrlsKept` | internal/service/message.go:171-195 | with at most twenty messages loaded the URLs are always kept |
| `MsgHistory.OlderMessagesDoNotMatter` | internal/service/message.go:187-195 | nothing before a list with media changes the history |
| `Experiments.LastDigit` | internal/service/product.go:402-409 | the rule looks at the last character exactly when it is a digit, and at its value |
| `Experiments.RuleMatchesIff` | internal/service/product.go:395-416 | a rule matches exactly the ids that end with one of its digits |
| `Experiments.SortByPriority` | internal/service/product.go:375-377 | sorted by descending priority, a permutation |
| `Experiments.MatchExperiment` | internal/service/product.go:373-386 | a matching experiment of maximal priority, none exactly when none matches, the list permuted |
| `Experiments.FirstMatchIsBest` | internal/service/product.go:379-384 | the first match of a sorted list is a maximum |
| `Experiments.ApplyExperiment` | internal/service/product.go:430-501 | fresh products with the specified contents, or the failure; nothing that existed before is modified |
| `Experiments.TwoPasses` | internal/service/product.go:433-478 | inclusion then exclusion is one selection |
| `Experiments.SelectedMembers` | internal/service/product.go:433-478 | a product is selected exactly when included and not excluded, with its multiplicity |
| `Experiments.SelectedOrder` | internal/service/product.go:433-478 | the selection keeps the base order |
| `Experiments.NoModifications` | internal/service/product.go:430-501 | without modifications the result is precisely the selection |
| `Experiments.ListedIsRewritten` | internal/service/product.go:482-493 | of what is shown exactly the products with a modification are rewritten, each by its own |
| `Experiments.FailsIff` | internal/service/product.go:482-493 | it fails exactly when the modification of a shown product does |
| `WorkflowInputs.BuildWorkflowInputsFromImage` | internal/api/picture_forge.go:798-846 | the loop with its moving index consumes the URLs slot by slot |
| `WorkflowInputs.FilledByPosition` | internal/api/picture_forge.go:810-835 | the image slot behind j image slots gets URL j when it exists and its default otherwise; only a text input named InputPrompt takes the prompt, if there is one |
| `WorkflowInputs.ImagesInOrder` | internal/api/picture_forge.go:816-823 | read in order the image slots are the URLs written over the defaults |
| `WorkflowInputs.InputCount` | internal/api/picture_forge.go:837-843 | one input per definition, and one more, last, for a prompt |

## Left out

- Skew between Redis clocks and failover between Redis nodes: one keyspace with one clock.
- Ticks that come late but within their period: a tick is on time or missed.
- A renewal TTL below three nanoseconds, for which the Go ticker panics.
- Whole-row saves of executors that hold an older copy of a task, and the periodic sweep in
  internal/task/picture_workflow: the lifecycle has the locked steps, progress of a task that is not
  terminal (to FAILED too), and the chain notification as one step for each task.
- The five-minute lock around a chain's failure handling: a notice may stay without effect.
- Saves of a row's other columns from an older read: only what a row holds is tracked as stale.
- Chain tasks in the lifecycle: both carry the record of the whole charge; their refunds are in ChainRefund, on fresh rows.
- float64 rounding: the refund ratio is an exact fraction, so a share that is a whole number is exact here
  and may be one less in the source.
- JSON encoding of deduction records and input definitions, ones that do not parse, and the JSON decoder behind the codec.
- Faults of the allowance lock's own commands, which leave it behind for its five seconds: no result relies on it.
- Storage failures inside a deduction are one failure of the whole transaction.
- The expiry job, purchases and membership upgrades of the credit service.
- Which returns of a submit release the slot after the check (a finish step gives it back or not), slots of chain tasks, and the reconciler.
- QuotaRebuild.AmountHash.DeleteInvalid: requires an id without captures, classes, sets and escapes, that is
  without ( ) [ %, without a zero byte and without ^ in front, as do `Update` and every lemma with
  `KnownPattern`; the script accepts such ids or fails with a malformed pattern.
- QuotaRebuild.AmountHash.Update: the same ids.
- Case-insensitive collations and length limits of database columns, in which two ids could compare equal.
- White space outside ASCII, which the Go functions also trim.
- Order, limit and offset of the chat query: the result is a set of chats.
- Failing database reads in the history and product code.
- Experiments.SortByPriority: the source calls a library sort; the model sorts by insertion and promises only what that call documents.
- Codec.MultiUnmarshal: the shared current request is a parameter, not a variable that requests race for.
- The price of a chain, the payload of a virtual workflow and the creation of its tasks: sums and field copies.
- Transport, authentication, model calls, uploads, metrics and administration.
