# issue-to-pr agent: a model of its stateful core

The agent turns issues into pull requests through a queue of jobs, a review of each delivery, an HTTP
control plane and a patch executor. This project models the parts in which state is changed step by step
and in which several functions have to agree, and proves what they keep.

* **Queue** (`QueueModel`, `QueueRepository`, `QueueUseCases`, `QueueEffects`, `QueueSafety`, `QueueHistory`, `QueueLife`,
  `QueueCharges`, `QueueDrain`, `QueueStale`, `Timestamps`). `QueueModel` gives the rows, the writes and one step relation for
  enqueue, reclaim, claim, success, failure, close-out, cancel and resume. The classes of `QueueRepository` and
  `QueueUseCases` change the table in place, and each method is proved to make exactly such a step. A run is
  any interleaving of steps by any number of workers. `QueueEffects` says column by column what each step
  writes. `QueueSafety` holds for every run, also with completions
  by workers that lost their lease long ago; `QueueHistory` projects a run in which completions are *fenced*
  (the row still carries the token the worker was given) onto the life of one row, and `QueueLife` and
  `QueueDrain` prove attempts, budget, cancellation, backoff and a bound on the remaining work about such lives.
  A worker's pass is a method proved among arbitrary acts of other processes at every point at which they can come in.
* **Approvals** (`ApprovalPolicy`, `Approvals`, `Delivery`): risk evaluation, multi-reviewer approvals, the delivery gate,
  and what they come to on the stored records.
* **HTTP** (`RateLimiter`, `Idempotency`): the sliding window and the replay store.
* **Patches** (`Workspace`, `PatchExecution`, `PatchEffects`, `PatchPrediction`): the path guard, the text operations, APPLY and
  DRY_RUN.
* **Tokens** (`BearerToken`): base64url without padding (section 5 of RFC 4648; section 2 and Appendix C of
  RFC 7515) and the compact token around it.

`dafny verify dfyconfig.toml` checks the whole project.

## What turned out to be conditional

These promises do not hold on all inputs; each has its exact condition and an input on which it fails.

* *Attempts never exceed the maximum plus the expired leases.* An explicit negative `max_attempts` together with
  a budget of its own is accepted at enqueue (`NegativeAttemptsAreAccepted`). The bound holds of a new row exactly when
  the request does not carry a negative number (`NewRowAttemptsOkIff`), and is then kept for ever in fenced runs
  (`FencedRunBoundsAttempts`).
* *A default budget is always enough.* `ManageQueueUseCase` prices the provider name as given, the worker strips it.
  A budget suffices in every life exactly when it covers all attempts at the worker's price
  (`AlwaysAffordableIff`); a default budget does exactly when the name is not a padded `openai` that was priced as
  a cheaper heuristic plan (`DefaultBudgetIsEnoughIff`, with the input in `PaddedProviderFailsAtOnce`). No entry point
  of the repository passes such a name: the HTTP route and the Jira mapping strip it, the GitHub webhook passes a
  constant and the command line offers a choice of two (`interfaces/http/app.py:1185`, `:1352`, `:1413`,
  `interfaces/cli/main.py:542-547`, under `src/issue_to_pr_agent`), so only another direct caller of the use case can
  meet it. For a name that needs no stripping the default is always enough (`StrippedProviderIsEnough`).
* *The payload mirrors the columns.* The close-out of a cancelled job writes the worker to the column only. A step
  keeps the mirror exactly when it is not a close-out by a worker the row does not name (`StepKeepsMirrorIff`);
  stale success and failure writes keep it, and so does every fenced run. `LateCloseOutBreaksMirror` is a legal run
  whose last step breaks it.
* *Success is final.* A step from any reachable state undoes a success exactly when it is a failure reported by the
  holder of some lease of that job (`SuccessIsUndoneIff`), so over any stretch of any run a success lasts exactly when
  no such failure is reported (`SuccessLastsIff`); in fenced runs none is, and the row does not change at all
  (`SuccessIsAbsorbing`). `LateFailureRequeuesFinishedJob` is a legal run in which a success is undone.
* *A cancelled job stops.* In fenced runs it is never claimed again without a resume. But a running job that is
  cancelled and then loses its lease is queued with its flag set, and in fenced runs it can then be neither claimed nor
  resumed: it makes no move until it is cancelled once more (`CancelledThenReclaimedWaits`). Such rows and
  succeeded ones are exactly those that nothing but a cancel can move (`StuckIff`). In any run the wait ends
  exactly when the job is cancelled again, or a worker that lost its lease on it closes it out or reports success
  (`WaitEndsIff`); `LateCloseOutBreaksMirror` reaches the state and ends it in this way.
* *Distinct targets make a dry run reliable.* A write may turn the target of another operation into a directory, or
  a target may lie below a file. For distinct targets the dry run foretells the real run exactly when its own
  receipts show no such clash (`DryRunForetellsIff`, with the input in `DryRunMisleads`).
* *Each path and key has a replay entry of its own.* Different paths can share one, for some keys, exactly when one
  path goes on with a NUL after the other (`PathsMayMeetIff`; `SlotsMeetIff` says for which keys). If the two paths
  or the two keys hold no NUL there is no sharing (`SlotsDiffer`). In `FreshRequestIsRefused` two requests with different
  paths and keys are made and the second is answered 409 for the first one's entry. Whether a web server lets
  a NUL through is not part of this model.

## Assumptions

* Each queue operation is one atomic step, and so is each approval request and each review (which read the stored record,
  check it and write it back, `src/issue_to_pr_agent/application/use_cases/manage_approval.py:164-258`). The claim and the reclaim pass are transactions; enqueue, cancel, resume,
  the close-out of a cancelled job and the failure path from its second read to its save read a row and then write it.
* Job identifiers, approval identifiers and lease tokens are fresh. Rows are never deleted. Settings satisfy what the
  settings loader insists on, where a lemma says so.
* A worker may complete a grant at any later time, any number of times: the model keeps every lease ever handed out.
* Queue times are integers (microseconds); `Timestamps.TextOrderIsChronological` shows that comparing the stored
  texts compares these. The rate limiter's clock is a real number, and `int` of its positive values is the floor. A
  clock that does not step back is a hypothesis where it is needed.
* HTTP requests are handled one after another, as the single-threaded server does
  (`src/issue_to_pr_agent/interfaces/http/server.py:28`).
* SHA-256 is injective, so a hashed text stands for its digest. The message authentication code and the JSON
  functions are parameters of the token functions, with their laws as hypotheses of the lemmas. The base64 decoder
  follows the lenient scan of CPython's `binascii`, which is not part of the repository.

## Model

| member | source | states |
|---|---|---|
| QueueSafety.RunKeepsLeases | src/issue_to_pr_agent/infrastructure/persistence/run_repository.py:1502-1569 | in every reachable state, stale completions included, a job is RUNNING iff it has a lease token iff it has a lease expiry, and RUNNING names a worker |
| QueueSafety.ReclaimIsExact | src/issue_to_pr_agent/infrastructure/persistence/run_repository.py:1709-1789 | a reclaim pass in any reachable state requeues exactly the RUNNING rows with expiry <= now, records who lost the lease, leaves every other row alone, and no row stays RUNNING past its expiry |
| QueueSafety.OnlyClaimsStart | src/issue_to_pr_agent/application/use_cases/process_queue.py:346-399 | no step but the claim proper sets a row RUNNING or changes the worker, tenant or key of a RUNNING row |
| QueueSafety.SelectedIsEligible | src/issue_to_pr_agent/infrastructure/persistence/run_repository.py:1637-1667 | a selected row is queued, due, not cancelled, of an allowed type, and passes tag affinity, concurrency key and tenant cap |
| QueueSafety.MayStartIff | src/issue_to_pr_agent/infrastructure/persistence/run_repository.py:1637-1664 | a row may be started iff it is queued, not cancelled, due, of a wanted type, the worker has its tags, no running row has its key, and its named tenant runs fewer than the cap |
| QueueSafety.RunKeepsCaps | src/issue_to_pr_agent/infrastructure/persistence/run_repository.py:1482-1569 | in every reachable state no worker and no named tenant runs more than its cap, and two RUNNING jobs never share a concurrency key |
| QueueSafety.SuccessIsUndoneIff | src/issue_to_pr_agent/application/use_cases/process_queue.py:299-399 | from any reachable state, stale completions included, a step makes a succeeded job not succeeded iff it is a failure reported under some lease of that job, and then the job is QUEUED or FAILED |
| QueueSafety.SuccessLastsIff | src/issue_to_pr_agent/application/use_cases/process_queue.py:367-399 | over any stretch of any run a succeeded job stays succeeded iff no failure of it is reported |
| QueueSafety.WaitEndsIff | src/issue_to_pr_agent/application/use_cases/process_queue.py:299-310 | in any run a queued row with its cancel flag set is unchanged by a step unless the step cancels it or is a close-out or success under one of its leases, and then it no longer waits |
| QueueSafety.RunKeepsTokens | src/issue_to_pr_agent/infrastructure/persistence/run_repository.py:1503-1571 | in every reachable state a row that carries a token is the row its worker was given, but for what a cancel writes, and every token in the table was granted for that row |
| QueueSafety.FinalizeMirrorsIff | src/issue_to_pr_agent/application/use_cases/process_queue.py:654-706 | a close-out leaves payload and columns equal iff the row already named the closing worker |
| QueueSafety.StepKeepsMirrorIff | src/issue_to_pr_agent/application/use_cases/process_queue.py:347-398 | a step keeps payload and columns equal, in the table and in every handed-out snapshot, iff it is not a close-out by a worker the row does not name |
| QueueSafety.RunKeepsMirror | src/issue_to_pr_agent/application/use_cases/manage_queue.py:335-342 | over whole runs the payload mirrors status, worker, attempts, budget, due time, lease, rehydrations, cancel flag, summary, key and tags, even with stale success and failure writes |
| QueueSafety.FencedRunKeepsMirror | src/issue_to_pr_agent/infrastructure/persistence/run_repository.py:1754-1787 | every fenced run keeps the mirror |
| QueueHistory.ProjectStep | src/issue_to_pr_agent/application/use_cases/process_queue.py:299-399 | in a fenced step the completion write, which mixes the claim's snapshot with the re-read row, is what it would be from the current row alone; other rows at most lose their lease |
| QueueHistory.Project | src/issue_to_pr_agent/application/use_cases/process_queue.py:98-178 | between any two states of a fenced run each row is the earlier one after a sequence of moves, each possible when made |
| QueueHistory.Birth | src/issue_to_pr_agent/application/use_cases/manage_queue.py:403-489 | every row of a reachable state was created by an earlier accepted enqueue, with that request's values |
| QueueHistory.LifeOf | src/issue_to_pr_agent/application/use_cases/manage_queue.py:66-97 | every row of a fenced run is a new row of an accepted request after possible moves |
| QueueEffects.SecondIsASecond | src/issue_to_pr_agent/application/services/queue_budget.py:73-74 | a second on the calendar is a second on the queue's clock |
| QueueEffects.EnqueueEffect | src/issue_to_pr_agent/application/use_cases/manage_queue.py:403-489 | an accepted enqueue adds one row that holds what was asked for (type, tenant, priority, attempts, budget, stripped key and tags, provider), with nothing behind it, claimable from that moment; no other row changes |
| QueueEffects.EnqueueCheckIs | src/issue_to_pr_agent/application/services/queue_budget.py:38-56 | which of the four limits refuses an enqueue, and that none does iff the budget is in range and there is room overall and for the tenant |
| QueueEffects.RunKeepsRequests | src/issue_to_pr_agent/application/use_cases/manage_queue.py:422-488 | in every reachable state, stale completions included, each job still holds what some earlier accepted request asked for, within the job limit |
| QueueEffects.PendingIsBounded | src/issue_to_pr_agent/application/services/queue_budget.py:50-56 | while nothing is resumed, a fenced run never has more jobs queued or running than the limits overall and per tenant |
| QueueEffects.ReclaimEffect | src/issue_to_pr_agent/infrastructure/persistence/run_repository.py:1753-1787 | a reclaimed row is queued again with its worker and lease gone and one rehydration more; attempts, charges, due time and cancel flag stay |
| QueueEffects.ClaimEffect | src/issue_to_pr_agent/infrastructure/persistence/run_repository.py:1502-1569 | a claim changes one row: running for that worker under that token, one attempt more, no error, and a lease that has expired iff the lease time has passed since the claim |
| QueueEffects.LeaseLasts | src/issue_to_pr_agent/infrastructure/persistence/run_repository.py:1504 | in every run, while a row carries the token of a claim, a pass reclaims it iff it comes the lease time after that claim or later |
| QueueEffects.SuccessEffect | src/issue_to_pr_agent/application/use_cases/process_queue.py:283-399 | a success writes the claim's snapshot as succeeded, off its lease, uncancelled, and charged with the price of its type and stripped provider; the other columns are the snapshot's |
| QueueEffects.FailureEffect | src/issue_to_pr_agent/application/use_cases/process_queue.py:299-399 | a failure writes the snapshot, charged on top of the re-read row, queued if the re-read row has attempts left and failed otherwise; a charge is nothing or the price |
| QueueEffects.RetryIsDue | src/issue_to_pr_agent/application/services/queue_budget.py:71-74 | a job that failed with attempts left can be claimed again iff as many backoffs as it has made attempts, at least one, have passed |
| QueueEffects.CloseOutEffect | src/issue_to_pr_agent/application/use_cases/process_queue.py:654-706 | a close-out writes the re-read row as cancelled, off its lease, under the closing worker; attempts, charges and due time stay |
| QueueEffects.CancelCheckIs | src/issue_to_pr_agent/application/use_cases/manage_queue.py:296-297 | a cancel is refused iff the job has succeeded or is cancelled |
| QueueEffects.CancelEffect | src/issue_to_pr_agent/application/use_cases/manage_queue.py:298-342 | a cancel raises the flag, stops a queued job at once, says by whom, and leaves status, lease and counters of any other job |
| QueueEffects.ResumeCheckIs | src/issue_to_pr_agent/application/use_cases/manage_queue.py:354-357 | a resume is accepted iff the job is failed or cancelled and has attempts left or is reset, with the error of the check that fails |
| QueueEffects.ResumeEffect | src/issue_to_pr_agent/application/use_cases/manage_queue.py:358-400 | a resumed job is queued, due at once, flag down, with no worker, lease or error; attempts and charges restart iff reset |
| QueueCharges.ChargesAddUp | src/issue_to_pr_agent/application/use_cases/process_queue.py:272-287 | over any life the budget column equals the sum of the charges since the last reset: the price per success, and the price or nothing per failure |
| QueueCharges.FencedRunCharges | src/issue_to_pr_agent/application/use_cases/process_queue.py:311-324 | in every fenced run a job's budget column equals the sum of what its reported attempts were charged since its last reset, by the events of the run |
| QueueLife.NewRowAttemptsOkIff | src/issue_to_pr_agent/application/use_cases/manage_queue.py:66-73 | a new row satisfies the attempt bound, and gets at least one attempt, iff the request has no negative number of attempts |
| QueueLife.AttemptsCountClaims | src/issue_to_pr_agent/infrastructure/persistence/run_repository.py:1517 | over any life the attempt column is the number of claims since the last reset, at most the maximum plus the leases expired since then, strictly fewer while queued |
| QueueLife.FencedRunBoundsAttempts | src/issue_to_pr_agent/application/use_cases/process_queue.py:311-312 | in fenced runs attempts <= max attempts + rehydrations, strictly when QUEUED, and claims since the last reset exceed the maximum by at most the expired leases |
| QueueLife.FencedRunKeepsBudget | src/issue_to_pr_agent/application/services/queue_budget.py:58-69 | in fenced runs 0 <= budget used <= budget units for every job at all times |
| QueueLife.ChargesHold | src/issue_to_pr_agent/application/use_cases/process_queue.py:272-287 | over any life what was charged stays within cost times attempts, and one attempt short of cost times maximum while the job is live |
| QueueLife.AlwaysAffordableIff | src/issue_to_pr_agent/application/services/queue_budget.py:29-69 | every attempt of every possible life, with any number of expiries, cancels, resumes and resets, passes the budget check iff the budget covers all attempts at the price charged |
| QueueLife.DefaultBudgetIsEnoughIff | src/issue_to_pr_agent/application/use_cases/manage_queue.py:67-71 | a job with the default budget always passes the budget check iff its provider is not a padded "openai" priced below what the worker charges |
| QueueLife.PaddedProviderFailsAtOnce | src/issue_to_pr_agent/application/services/queue_budget.py:16-22 | at the use case, which takes any text: with the shipped settings a plan enqueued for " openai" is accepted and its first attempt refused; the entry points of the repository pass no such name |
| QueueLife.StrippedProviderIsEnough | src/issue_to_pr_agent/interfaces/http/app.py:1185 | for every provider name that needs no stripping, no attempt of any life of a job with the default budget fails its budget check |
| QueueLife.NegativeAttemptsAreAccepted | src/issue_to_pr_agent/application/services/queue_budget.py:38-56 | a request for -1 attempts with a budget of its own passes every enqueue guard, and its row breaks the attempt bound |
| QueueLife.FencedRunAffords | src/issue_to_pr_agent/application/use_cases/process_queue.py:272-277 | in fenced runs a job whose budget covers its attempts never fails the budget check |
| QueueLife.CancelledIsNotClaimed | src/issue_to_pr_agent/application/use_cases/manage_queue.py:294-343 | in fenced runs a job is not claimed between a successful cancel and the next resume of it, whatever state the cancel found it in |
| QueueLife.SuccessIsAbsorbing | src/issue_to_pr_agent/application/use_cases/process_queue.py:283-287 | in fenced runs a succeeded row never changes again |
| QueueLife.CancelledThenReclaimedWaits | src/issue_to_pr_agent/application/use_cases/manage_queue.py:354-357 | over any fenced life a queued row with its cancel flag set makes no move at all, neither claim nor resume, unless it is cancelled again |
| QueueLife.StuckIff | src/issue_to_pr_agent/application/use_cases/manage_queue.py:296-357 | the rows that in a fenced run nothing but a cancel can move are exactly the succeeded ones and the queued ones whose cancel flag is set |
| QueueLife.ClaimGaps | src/issue_to_pr_agent/application/services/queue_budget.py:71-74 | without expiry and resume, claim i + 1 comes at least i backoffs after claim i, and a waiting job is not due before its next gap has passed |
| QueueLife.BackoffAccumulates | src/issue_to_pr_agent/application/use_cases/process_queue.py:319-323 | along a fenced run with a clock that does not step back, claim n + 1 comes at least backoff * n(n+1)/2 seconds after the first |
| QueueDrain.EmptyIff | src/issue_to_pr_agent/application/use_cases/process_queue.py:311-312 | the measure of remaining work is never negative, and zero iff no job is queued or running |
| QueueDrain.QuietRunDrains | src/issue_to_pr_agent/application/use_cases/process_queue.py:98-178 | while nothing is enqueued or resumed and no lease expires, every claim and completion of a fenced run uses up the measure, and no step adds to it |
| QueueDrain.QuietWorkIsBounded | src/issue_to_pr_agent/infrastructure/persistence/run_repository.py:1517-1753 | so the measure at the start bounds all later claims and completions, and once it is used up no job is queued or running |
| QueueDrain.IdleClaimIsEmptyIff | src/issue_to_pr_agent/infrastructure/persistence/run_repository.py:1637-1669 | while nothing runs, a claim by a worker with all tags, when all queued jobs are due and fit the scan, finds nothing iff every queued job has its cancel flag set: no other job is left behind |
| QueueStale.LateFailureRequeuesFinishedJob | src/issue_to_pr_agent/application/use_cases/process_queue.py:367-399 | a legal run of two workers in which only the last step is stale and requeues a succeeded job |
| QueueStale.LateCloseOutBreaksMirror | src/issue_to_pr_agent/application/use_cases/process_queue.py:654-706 | a legal run in which a cancelled job loses its lease and waits; the only stale step, a close-out by the old worker, ends the wait and leaves payload and column with different workers |
| QueueRepository.RunRepository.SaveQueueJob | src/issue_to_pr_agent/infrastructure/persistence/run_repository.py:1276-1343 | the row is replaced as a whole, without looking at what is stored |
| QueueRepository.RunRepository.RequeueExpired | src/issue_to_pr_agent/infrastructure/persistence/run_repository.py:1709-1789 | the loop reclaims exactly the expired rows and returns their number |
| QueueRepository.RunRepository.QueryClaimable | src/issue_to_pr_agent/infrastructure/persistence/run_repository.py:1637-1646 | the scan holds matching rows only, once each, by priority and age, and what it leaves out comes after a scan that is full |
| QueueRepository.RunRepository.RunningCountsByTenant | src/issue_to_pr_agent/infrastructure/persistence/run_repository.py:1694-1707 | the grouped counts, read with a missing tenant as "", are the running jobs of each named tenant and the load the fairness key uses |
| QueueRepository.ScanIsFull | src/issue_to_pr_agent/infrastructure/persistence/run_repository.py:1643-1646 | the scan holds as many matching rows as the limit allows |
| QueueRepository.ScanIsOrdered | src/issue_to_pr_agent/infrastructure/persistence/run_repository.py:1643 | rows are scanned by priority and then by age, and those cut off come after all that were scanned |
| QueueRepository.RunRepository.SelectClaimable | src/issue_to_pr_agent/infrastructure/persistence/run_repository.py:1595-1670 | the loop returns the first eligible scanned row with the lexicographically least (-priority, tenant load, age), and none iff none is eligible |
| QueueRepository.RunRepository.ClaimNext | src/issue_to_pr_agent/infrastructure/persistence/run_repository.py:1470-1571 | one claim transaction is one claim step: reclaim, worker cap, selection, write; a returned lease is recorded and in the table |
| QueueRepository.NothingIffNoneEligible | src/issue_to_pr_agent/infrastructure/persistence/run_repository.py:1668-1669 | a selection is empty iff no scanned row is eligible |
| QueueRepository.NoHigherPriority | src/issue_to_pr_agent/infrastructure/persistence/run_repository.py:1643-1667 | for any scan limit no eligible row of the whole table has higher priority than the selected one, and among scanned rows of that priority none has a lesser load, or equal load and greater age |
| QueueRepository.ClaimTakesTopPriority | src/issue_to_pr_agent/infrastructure/persistence/run_repository.py:1482-1501 | a claim step never passes over a row of higher priority that it could have taken |
| QueueRepository.MissedOnlyBehindFullScan | src/issue_to_pr_agent/infrastructure/persistence/run_repository.py:1643-1669 | an empty selection overlooks an eligible row only if more rows match the query than the scan limit |
| QueueRepository.ClaimFindsWorkIff | src/issue_to_pr_agent/infrastructure/persistence/run_repository.py:1482-1501 | with all matching rows in the scan, a claim step finds a job iff the worker runs fewer than its cap and the table after the reclaim holds a row that may be started |
| QueueUseCases.ManageQueue.Enqueue | src/issue_to_pr_agent/application/use_cases/manage_queue.py:42-97 | succeeds iff permitted and within the budget and pending limits, is then one enqueue step, and changes nothing otherwise; the error says which guard failed |
| QueueUseCases.ManageQueue.CancelJob | src/issue_to_pr_agent/application/use_cases/manage_queue.py:294-343 | succeeds iff the job exists, access is permitted and the job is not final, is then one cancel step, and changes nothing otherwise |
| QueueUseCases.ManageQueue.ResumeJob | src/issue_to_pr_agent/application/use_cases/manage_queue.py:345-401 | succeeds iff the job is failed or cancelled and has attempts left or is reset, is then one resume step, and changes nothing otherwise |
| QueueUseCases.ProcessQueue.BeginJob | src/issue_to_pr_agent/application/use_cases/process_queue.py:248-277 | a job with its cancel flag set is closed out before anything is charged; an attempt goes on only within its budget, at its price; an error leaves the table alone |
| QueueUseCases.ProcessQueue.Others | src/issue_to_pr_agent/infrastructure/persistence/run_repository.py:1482-1483 | other processes enqueue, cancel, resume, reclaim, claim and complete in any order between two steps of a worker: the path goes on by one step for each act that can be done, none taking a lease away or completing one of the worker's own |
| QueueUseCases.ProcessQueue.FinishJob | src/issue_to_pr_agent/application/use_cases/process_queue.py:299-399 | the end of an attempt is one success, failure or close-out step, chosen by the dispatch and the re-read cancel flag, whatever the row has become |
| QueueUseCases.ProcessQueue.ProcessJob | src/issue_to_pr_agent/application/use_cases/process_queue.py:224-446 | whatever other processes do before the start and during the dispatch, an attempt ends with exactly one completion of its lease: closed out at its start, or its result (refused for nothing, or the dispatch at its price) as success, failure or close-out by the flag at that moment; alone it is one step, fenced if the row carried the token |
| QueueUseCases.ProcessQueue.TakeTurn | src/issue_to_pr_agent/application/use_cases/process_queue.py:134-178 | one turn reclaims and claims among arbitrary acts of other processes and, unless that claim found nothing, makes the attempt it was given: it extends a path of the protocol and counts exactly its own completion; alone it keeps the path fenced |
| QueueUseCases.ProcessQueue.Process | src/issue_to_pr_agent/application/use_cases/process_queue.py:98-222 | a worker's pass among arbitrary acts of other processes is a path of the protocol, its counters are the completions of each kind under its own tokens on that path, and it stops before its number of jobs only when told to shut down or after a claim that found nothing; alone the path is fenced |
| Timestamps.FractionOrder | src/issue_to_pr_agent/application/services/queue_budget.py:74 | a fraction that is omitted when zero still orders as text by its value, since '+' comes before '.' |
| Timestamps.PadShows | src/issue_to_pr_agent/application/services/queue_budget.py:74 | a padded field shows its decimal digits, highest first |
| Timestamps.TextOrderIsChronological | src/issue_to_pr_agent/infrastructure/persistence/run_repository.py:1743 | for all UTC timestamps of four-digit years, text order is chronological order and equal texts are equal instants |
| ApprovalPolicy.RaiseRisk | src/issue_to_pr_agent/application/services/approval_policy.py:96-144 | raising the level rule by rule reaches the highest level any rule calls for, LOW if none does |
| ApprovalPolicy.RiskIff | src/issue_to_pr_agent/application/services/approval_policy.py:79-144 | a delivery is critical, high, medium or low exactly as its labels (same name but for white space and case), changed paths, number of files, command decisions, attempts and skipped commands say |
| ApprovalPolicy.RequiredIs | src/issue_to_pr_agent/application/services/approval_policy.py:146-148 | the approvals asked for at each level are the number the governing policy names for it, and approval is required iff some are asked for and nothing blocks |
| ApprovalPolicy.BlockedIff | src/issue_to_pr_agent/application/services/approval_policy.py:85-94 | each blocked reason is given iff its rule says so: no requester team, a team that may not request, a team off a non-empty list, a blocked label |
| ApprovalPolicy.ReviewerCheckIs | src/issue_to_pr_agent/application/services/approval_policy.py:181-224 | who may decide, and which check answers the others, by team, policy list, required teams, assigned reviewers and teams, and self-approval |
| ApprovalPolicy.LowerIs | src/issue_to_pr_agent/application/services/approval_policy.py:328-329 | lower-casing changes upper-case letters, in place, and nothing else |
| ApprovalPolicy.EvaluateDelivery | src/issue_to_pr_agent/application/services/approval_policy.py:69-179 | the evaluation has the risk of the findings, the approvals its repository asks for at that risk, and the blocked reasons; approval is required iff some are asked for and nothing blocks |
| ApprovalPolicy.RiskIsUnique | src/issue_to_pr_agent/application/services/approval_policy.py:359-360 | facts and policy determine the risk level |
| ApprovalPolicy.TeamDoesNotChangeRisk | src/issue_to_pr_agent/application/services/approval_policy.py:85-148 | the requester's team changes blocked reasons only, never the level, the number of approvals or the teams |
| Approvals.ApprovalWorkflow.RequestDeliveryApproval | src/issue_to_pr_agent/application/use_cases/manage_approval.py:47-140 | refused for unlinked or failed records and for a non-positive expiry of a pending request; otherwise stores a rejected, pending or approved request as its evaluation says |
| Delivery.HourIsAnHour | src/issue_to_pr_agent/application/use_cases/manage_approval.py:411-417 | the hour of an expiry is an hour of the calendar |
| Delivery.LinkCheckIs | src/issue_to_pr_agent/application/use_cases/manage_approval.py:261-297 | when records are unknown, not successful, not applied or not linked, and that none of these holds iff all three belong together |
| Delivery.RequestIs | src/issue_to_pr_agent/application/use_cases/manage_approval.py:85-139 | a request is rejected, pending or approved exactly as its team, labels and the approvals asked for at its level say, and stores those numbers and teams |
| Delivery.CleanListHolds | src/issue_to_pr_agent/application/use_cases/manage_approval.py:433-437 | a cleaned list holds the stripped items that are not empty |
| Approvals.ApprovalWorkflow.Decide | src/issue_to_pr_agent/application/use_cases/manage_approval.py:155-258 | succeeds iff the approval is pending, not expired, the reviewer may decide and has not decided before; appends the decision and moves the status; changes nothing otherwise |
| Delivery.DecideCheckIs | src/issue_to_pr_agent/application/use_cases/manage_approval.py:165-187 | when a review is accepted, and which check refuses the others: final, expired, reviewer, already reviewed |
| Delivery.ReviewedIs | src/issue_to_pr_agent/application/use_cases/manage_approval.py:197-219 | an accepted review appends its decision, counts it, and moves the status: rejected iff it rejects, approved iff it approves and reaches the number; nothing else changes |
| Delivery.RequestStays | src/issue_to_pr_agent/application/use_cases/manage_approval.py:227-258 | over any history the stored subject, number, expiry, reviewers and teams of an approval never change |
| Delivery.ExpiryEnds | src/issue_to_pr_agent/application/use_cases/manage_approval.py:404-408 | over any history no review of an approval is accepted and no delivery passes on it at or after the expiry it was stored with |
| Approvals.ApprovalWorkflow.CountApproving | src/issue_to_pr_agent/application/use_cases/manage_approval.py:209 | the count is that of the approving decisions |
| Approvals.ApprovalWorkflow.PassGate | src/issue_to_pr_agent/application/use_cases/deliver_run.py:128-161 | a delivery passes iff its records are linked and clean, its evaluation is not blocked, and it needs no approval or brings an approved, unexpired one for the same records; otherwise it reports the first check that fails |
| Approvals.PassesOrRefuses | src/issue_to_pr_agent/application/use_cases/deliver_run.py:407-443 | a delivery is refused with one definite error or passes, never both |
| Approvals.HistoryOk | src/issue_to_pr_agent/application/use_cases/manage_approval.py:168-219 | in every reachable state: PENDING has only approvals by distinct actors and too few; APPROVED has exactly the required number; REJECTED by review ends in its only rejection; the requester is not among them while self-approval is off |
| Approvals.FinalStays | src/issue_to_pr_agent/application/use_cases/manage_approval.py:168-169 | a final approval never changes again |
| Approvals.DeliveryIsApproved | src/issue_to_pr_agent/application/use_cases/deliver_run.py:407-443 | over every history of requests and reviews, a delivery that passes has as many distinct approvers as its own evaluation requires, on an approval for the same run, execution and verification, none the requester while self-approval is off |
| Delivery.DeliveryPassesIff | src/issue_to_pr_agent/application/use_cases/deliver_run.py:352-443 | a delivery passes iff its records are linked, clean and at the root, no label blocks it, and it needs no approval at the level its stored labels, paths and counts call for and brings none, or brings one that is approved, unexpired and for these records |
| Delivery.DeliveryHasReviewers | src/issue_to_pr_agent/application/use_cases/deliver_run.py:407-443 | over every history, a delivery that passes has as many distinct approvers of these very records as the policy names for the level its stored labels, paths and counts call for, none the requester while self-approval is off |
| RateLimiter.InMemoryRateLimiter.Check | src/issue_to_pr_agent/interfaces/http/app.py:122-138 | one request admits, prunes and reports as the bucket functions say; remaining is what is left of the limit; a refusal names when the oldest request leaves |
| RateLimiter.BucketsPrune | src/issue_to_pr_agent/interfaces/http/app.py:127-133 | after any requests a key's bucket is its full accepted history without some entries that have left the window |
| RateLimiter.LimiterAgrees | src/issue_to_pr_agent/interfaces/http/app.py:128-132 | the pruned bucket admits exactly when fewer than the limit of the accepted requests of that key lie in (now - 60, now] |
| RateLimiter.TakenIsAccepted | src/issue_to_pr_agent/interfaces/http/app.py:122-138 | over any sequence of requests the buckets admit the very requests that counting the full history would accept |
| RateLimiter.AtMostLimitPerMinute | src/issue_to_pr_agent/interfaces/http/app.py:122-133 | for every key and every window of 60 seconds, at any time, at most the limit of the requests the pruned buckets admit lie in it |
| Idempotency.FileIdempotencyStore.Replay | src/issue_to_pr_agent/interfaces/http/app.py:145-168 | nothing for an unknown slot, 409 for another request hash, the stored response otherwise |
| Idempotency.KeyIs | src/issue_to_pr_agent/interfaces/http/app.py:1803-1817 | which header identifies a request: none but for POST; for a webhook GitHub's before Jira's before Slack's before the general one, else the general one alone; stripped and not empty |
| Idempotency.FileIdempotencyStore.Save | src/issue_to_pr_agent/interfaces/http/app.py:170-190 | exactly the slot of the request is written, with its hash and response |
| Idempotency.ControlPlaneApi.HandleRequest | src/issue_to_pr_agent/interfaces/http/app.py:239-345 | OPTIONS, admission, replay, dispatch and store in this order; errors and statuses of 500 and above are not stored |
| Idempotency.EntriesStay | src/issue_to_pr_agent/interfaces/http/app.py:274-309 | over any sequence of requests a stored entry keeps its contents |
| Idempotency.WrittenOnce | src/issue_to_pr_agent/interfaces/http/app.py:1639-1657 | over any sequence of requests a slot is written at most once |
| Idempotency.HashIsBody | src/issue_to_pr_agent/interfaces/http/app.py:1820-1827 | for one method and path, equal request hashes mean equal bodies |
| Idempotency.ReplaysForEver | src/issue_to_pr_agent/interfaces/http/app.py:1621-1637 | once stored, every later admitted request with the path and key is answered without dispatch: the stored response for the same body, 409 for any other |
| Idempotency.SlotsMeetIff | src/issue_to_pr_agent/interfaces/http/app.py:201-203 | two requests share a slot iff path and key are equal, or one path goes on with a NUL after the other and the keys make up the difference |
| Idempotency.PathsMayMeetIff | src/issue_to_pr_agent/interfaces/http/app.py:201-203 | different paths share a slot for some keys iff one goes on with a NUL after the other |
| Idempotency.SlotsDiffer | src/issue_to_pr_agent/interfaces/http/app.py:201-203 | if the paths or the keys hold no NUL, requests share a slot iff path and key are equal |
| Idempotency.FreshRequestIsRefused | src/issue_to_pr_agent/interfaces/http/app.py:145-157 | two requests with different paths and keys: the first is dispatched and stored, the second is answered 409 without dispatch |
| Workspace.AcceptedIsUnderRootUnblocked | src/issue_to_pr_agent/domain/policies/workspace.py:19-30 | an accepted path, with any mix of names and "..", resolves under the root with no blocked component below it, though only unresolved components are checked |
| PatchEffects.ResolvePathIs | src/issue_to_pr_agent/domain/policies/workspace.py:19-30 | what the guard answers to a path: absolute, escaping, blocked or accepted at its resolution, the first check that fails first |
| PatchEffects.PlainPathIsAccepted | src/issue_to_pr_agent/domain/policies/workspace.py:19-30 | a relative path without ".." and blocked names is accepted and lies where it says |
| PatchEffects.ResolveConcat | src/issue_to_pr_agent/domain/policies/workspace.py:23 | resolving a path is resolving its components one after the other |
| PatchEffects.ResolveNames | src/issue_to_pr_agent/domain/policies/workspace.py:23 | names go down |
| PatchEffects.ResolveUp | src/issue_to_pr_agent/domain/policies/workspace.py:23 | ".." takes back one name and stays at the top |
| PatchEffects.PartsConcat | src/issue_to_pr_agent/domain/policies/workspace.py:20 | the components of a path are those of the two sides of any slash |
| PatchEffects.JoinShows | src/issue_to_pr_agent/domain/policies/workspace.py:42 | the text of a location under the root has that location's components |
| PatchEffects.ValidateIs | src/issue_to_pr_agent/domain/policies/workspace.py:32-75 | which check refuses an operation on its target, and that none does iff kind, allowed paths, size and place permit it |
| PatchEffects.MayAddIff | src/issue_to_pr_agent/application/use_cases/execute_patch_proposal.py:197-206 | a new file may be added right under "tests" or in the directory of an allowed file other than the root, if no allowed path leaves the root |
| Workspace.CountZero | src/issue_to_pr_agent/infrastructure/workspace/mutator.py:59-61 | the count is zero iff the text does not occur anywhere |
| Workspace.Leftmost | src/issue_to_pr_agent/infrastructure/workspace/mutator.py:67 | the replacement is made at the leftmost occurrence, where the count starts |
| Workspace.CountOneIff | src/issue_to_pr_agent/infrastructure/workspace/mutator.py:59-67 | the non-overlapping count is one iff there is a leftmost match with none beginning after its end, and then replacing gives prefix, replacement, suffix there |
| PatchExecution.LocalWorkspace.ApplyOperation | src/issue_to_pr_agent/infrastructure/workspace/mutator.py:11-43 | one operation reports, and in APPLY mode writes, exactly what its receipt says; on an error the workspace is unchanged |
| PatchEffects.OperationIs | src/issue_to_pr_agent/infrastructure/workspace/mutator.py:19-68 | what an accepted operation makes of the text it finds: a write its content, an append the text and then its content, a replacement the text with its only match replaced; with the receipt's fields |
| PatchEffects.OperationFails | src/issue_to_pr_agent/infrastructure/workspace/mutator.py:70-74 | an operation the guard lets through is unreadable iff its target is a directory or not text |
| PatchEffects.ReplacementFails | src/issue_to_pr_agent/infrastructure/workspace/mutator.py:58-66 | a replacement fails for no match, or for several without overlap, and for nothing else |
| PatchEffects.LineEndings | src/issue_to_pr_agent/infrastructure/workspace/mutator.py:70-72 | each of the three line endings is read as one newline |
| PatchEffects.ParentBlocks | src/issue_to_pr_agent/infrastructure/workspace/mutator.py:29-31 | a change judged fine cannot be written iff a file lies where a parent directory should |
| PatchExecution.LocalWorkspace.Execute | src/issue_to_pr_agent/application/use_cases/execute_patch_proposal.py:80-102 | the loop with its early exits is the fold of the operations: same workspace, receipts and error |
| PatchPrediction.ApplyIsAccountedFor | src/issue_to_pr_agent/application/use_cases/execute_patch_proposal.py:80-102 | after APPLY the workspace is the old one with the receipts' changes made in order, one receipt per operation up to the first that failed, each for its own target |
| PatchPrediction.FailureKeepsPrefix | src/issue_to_pr_agent/application/use_cases/execute_patch_proposal.py:136-147 | a failed run leaves what the operations before the failing one alone would leave, with their receipts |
| PatchPrediction.EachFileAfterwards | src/issue_to_pr_agent/infrastructure/workspace/mutator.py:29-31 | each file holds what the last receipt that changed it says, and no other file is touched |
| PatchEffects.ReceiptIsJudgement | src/issue_to_pr_agent/application/use_cases/execute_patch_proposal.py:80-102 | each receipt of an applied run is the judgement of its operation on what the ones before it left |
| PatchEffects.AppendIsApplied | src/issue_to_pr_agent/infrastructure/workspace/mutator.py:55-57 | after APPLY the file of an append that nothing later changes holds the text found there and then the appended text |
| PatchEffects.WriteIsApplied | src/issue_to_pr_agent/infrastructure/workspace/mutator.py:52-54 | after APPLY the file of a write that nothing later changes holds the written text, or already read as it |
| PatchEffects.DirectoriesAfterwards | src/issue_to_pr_agent/infrastructure/workspace/mutator.py:30 | the directories after APPLY are those before and every one above a changed file |
| PatchPrediction.EmptyNewFileIsNotCreated | src/issue_to_pr_agent/infrastructure/workspace/mutator.py:27-31 | writing an empty new file succeeds, reports no change and creates nothing |
| PatchPrediction.TargetsAreSafe | src/issue_to_pr_agent/domain/policies/workspace.py:41-42 | every target a run reports lies under the root, clear of blocked names |
| PatchPrediction.ReplacementIsAtTheMatch | src/issue_to_pr_agent/infrastructure/workspace/mutator.py:58-67 | a successful replacement is made at the leftmost match of the text, the only one counted |
| PatchPrediction.DryRunWritesNothing | src/issue_to_pr_agent/infrastructure/workspace/mutator.py:29 | a dry run leaves the workspace as it was |
| PatchPrediction.Lockstep | src/issue_to_pr_agent/application/use_cases/execute_patch_proposal.py:80-102 | for distinct targets the real run goes on as the dry run did until the first clash among its receipts, and fails there |
| PatchPrediction.DryRunForetellsIff | src/issue_to_pr_agent/application/use_cases/execute_patch_proposal.py:80-147 | for distinct targets APPLY gives the receipts, outcome and failing index of DRY_RUN iff the dry run's receipts do not clash |
| PatchPrediction.DryRunMisleads | src/issue_to_pr_agent/infrastructure/workspace/mutator.py:29-31 | creating "a" and then "a/b" succeeds dry and fails for real |
| BearerToken.RepaddingRestores | src/issue_to_pr_agent/application/services/authentication.py:130-135 | restoring -len % 4 padding undoes the stripping, for every byte string |
| BearerToken.ScanUndoesEncode | src/issue_to_pr_agent/application/services/authentication.py:130-137 | the decoder's scan of the padded encoding gives every byte string back |
| BearerToken.DecodeUndoesEncode | src/issue_to_pr_agent/application/services/authentication.py:130-139 | decoding undoes encoding for every byte string, and the encoding holds no ".", "=" or character beyond ASCII |
| BearerToken.Vectors | src/issue_to_pr_agent/application/services/authentication.py:130-131 | the test vectors of section 10 of RFC 4648 |
| BearerToken.ValueIs | src/issue_to_pr_agent/application/services/authentication.py:137 | the values of the characters: the URL alphabet, and "+" and "/" of the other one; nothing else |
| BearerToken.JunkIsSkipped | src/issue_to_pr_agent/application/services/authentication.py:137 | a character outside the alphabets might as well not be there |
| BearerToken.PaddingIs | src/issue_to_pr_agent/application/services/authentication.py:137 | what "=" does inside a text: nothing before the second letter of a group, nothing alone after it if a letter follows, and the end of the input once the padding is full |
| BearerToken.NonAsciiIsRefused | src/issue_to_pr_agent/application/services/authentication.py:136-139 | text with a character beyond ASCII is refused as a whole |
| BearerToken.LengthDecides | src/issue_to_pr_agent/application/services/authentication.py:134-139 | text over the alphabets decodes unless its length leaves a single letter over |
| BearerToken.TokenRoundTrip | src/issue_to_pr_agent/application/services/authentication.py:89-112 | a token decodes to its payload under its secret, for every payload and secret |
| BearerToken.TokenAcceptedIff | src/issue_to_pr_agent/application/services/authentication.py:98-112 | a token is accepted as a payload iff it has three segments, the last decoding to the code of the first two, the first to a header naming HS256, the second to that payload |
| BearerToken.OtherAlgorithmIsRefused | src/issue_to_pr_agent/application/services/authentication.py:108-110 | a rightly signed token whose header names another algorithm is refused for that |
| BearerToken.ChangedTokenIsRefusedIff | src/issue_to_pr_agent/application/services/authentication.py:98-107 | other segments under a kept signature are refused for the signature iff the code tells the two signed texts apart; nothing is assumed of the code |

## Left out

* Queue columns and records no modelled rule reads: repository, issue number, requester, receipt path, linked run,
  execution and verification identifiers, the stored result, attempt records and receipts.
* Traces, alerts, heartbeats, metrics and notifications: side effects without an invariant. The dispatch of a job is
  any success or failure; its texts, and the summaries of retries and failures, are abbreviated.
* `Enqueue` covers plan, verify and deliver jobs; external plans take the same guards, and their key parsing and the
  look-up of run records before the guards are not modelled. Tenant permission is a boolean.
* SQL: queries are functions and an insertion into sorted order; rows of equal priority and age come in any order.
  Storage errors and malformed stored JSON are not modelled.
* Loading and merging of policies, the extraction of labels and changed paths from payloads, reason and summary
  texts. How a path matches a pattern is an abstract predicate, so no glob rule is modelled.
* Strings: lower-casing is ASCII.
* The steps of a delivery after the approval gate (branch, governance, git, GitHub), receipts, and the change of stored
  run, execution and verification payloads.
* HTTP routing, authentication, CORS and response headers; the body of a response is a text. Concurrent requests.
* Patch execution on disk: symbolic links, permission and disk errors other than a file in the place of a parent
  directory, and receipts on disk. A directory is refused as unreadable whatever its size on disk.
* Other claims of a token (expiry, issuer, audience) and the JSON text itself.
* Network clients, Docker and git, the command line, planning, context ranking and evaluation scores: foreign calls or
  wide and shallow code.
