# Hubolt: verified models

Hubolt reviews pull requests with language models, on the command line and as a hosted service. This project models
its hardest parts in Dafny and proves properties of them over all inputs, all runs and all interleavings. Each module
follows one part of the program; methods and classes stand where the program updates something step by step, and each
such method is proved against a specification function about which the lemmas then speak.

- **Money.** `Ledger` is the monthly cost counter and the daily request window with the calls that change them.
  `GatewayProtocol`, `GatewayConservation` and `GatewayTiming` are the gateway's reservation protocol as a step system:
  clients, which may crash anywhere, workers, and duplicated, late or lost events interleave freely, every statement,
  transaction and queue call being one step. `GatewayWork` compares the ledger with what completed jobs really cost,
  and `GatewayDrift` tells what settling with another request's estimate does to it. `GatewayRequest` is one request
  with its nested error handling, `HostedBilling` one hosted review, and `Ingest` any number of deliveries of one
  review. Amounts are integers.
- **Hosted reviews.** `HostedReview` is the incremental review of one pull request by concurrent jobs,
  `HostedContext` the worker pool and the token budget behind it, `Budget` the greedy filling it shares with
  `Retrieval`, which selects memory cards.
- **Diffs and comments.** `DiffIndex` renders edit scripts in the unified format (IEEE Std 1003.1-2017, diff utility,
  section "Diff -u or -U Output Format") and scans them; `ChangedRanges` and `UnifiedDiff` are the two extractors of
  changed lines; `LineMapping` maps findings onto comments, and `CommentMarkers` and `Posting` post them once.
- **Prompts.** `PromptFence` builds the user prompt and reads its blocks back, and `PromptText` tells what stands in them;
  `Redaction` is the redactor and the scanner (private keys as in section 2 of RFC 7468), and `RedactedText` tells what
  they leave of a text and report of it; `NormalPrompt` is the text under which a prompt is cached,
  `CacheKey` the key made from it, and `LlmCache` the cache of model answers.
- **Smaller machines.** `EvalMatching` scores findings, `LoginThrottle` limits logins. `Text` and `Totals` are shared
  helpers.

`dafny verify dfyconfig.toml` checks everything.

## What turned out not to hold

Each of these is in the model as the code has it, with a concrete run or input. Where a member is named after "exactly",
it proves for all inputs or runs when the code does what it promises.

- The second look for a reusable job stands outside the error handling that refunds (llm-gateway.ts, lines 189 to 192):
  if it fails, or a refund does, the charge stays without a job (`GatewayConservation.FailedProbeLeaksTheCharge`).
  Exactly: `GatewayConservation.LeakOnlyGrows` for runs, `GatewayRequest.LLMGateway.ProcessRequest` for one request.
- Two requests that both read a settled row both overwrite it, and the first estimate is then refunded by nobody
  (`GatewayConservation.TwoRequestsReadingASettledRow`). Exactly: nothing is lost if and only if no reserved row is
  overwritten, `GatewayConservation.Conservation`; and the cost at rest is what was booked as spent if and only if
  nothing is overwritten or leaked, `GatewayConservation.RestingCost`.
- A request whose job the queue refuses, and whose refund then fails, leaves a reserved row without a job
  (`GatewayRequest.StrandedRequest`). Exactly: `GatewayRequest.LLMGateway.ProcessRequest`.
- The cost that a completed job reports need not be booked. A request that stops waiting refunds a live job, unless the
  queue calls it active, waiting or delayed (llm-gateway.ts, lines 689 to 704), and the job may complete all the same
  (`GatewayWork.AbandonedJobIsNotBooked`); and if the event of a completed job is dropped, its row stays reserved until
  another request takes it over and refunds it (`GatewayWork.UnheardJobIsNotBooked`). Exactly, under the timing guards:
  all work is booked at rest if and only if no job completes at a cost when its row has been refunded already, and no
  request refunds the row of a job that has, `GatewayWork.PaidWorkIsBooked`. Refunding a live job need not lose
  anything, as the job may fail (`GatewayWork.AbandonedJobMayFail`), and a dropped event loses nothing until the row is
  refunded.
- The hash that names a job does not cover its estimate, so a row may be settled with another request's
  (`GatewayDrift.DifferentEstimatesDrift`). Exactly: by how much the cost drifts, `GatewayDrift.DriftedConservation`,
  and that no step drifts if and only if every settling step agrees with its row, `GatewayDrift.NoDriftExactly`.
- A refund of an ingest that fails is only logged, and the review is charged again
  (`Ingest.FailedRefundChargesTwice`). Exactly: within the lifetime of the lock, one charge too many for each
  delivery that drops its charge, `Ingest.ChargesAddUp`, `Ingest.ChargedAtMostOnce`.
- A lock holder that outlives its lock lets a review be charged twice: `Ingest.LateHolderChargesTwice`.
- A file that a hosted review skips, because it is over the budget or cannot be read, is not offered again until it
  changes (`HostedReview.SkippedOnceNeverReviewed`). Exactly: `HostedReview.ReviewedUnlessSkipped`.
- A slot of the daily window is given back for the day on which a review ends. Exactly:
  `HostedBilling.SlotComesBackTheSameDayOnly`.
- An added line that begins with "++ " is read as a file name by one of the two extractors. Exactly:
  `UnifiedDiff.ExtractorsAgreeExactly`. A path that git quotes is reported in its quotes, and one that ends in white
  space without it; exactly: `UnifiedDiff.NameIsRead`, `UnifiedDiff.BarePathIsReadExactly`. A newline at the end of a
  patch shows one line too many: `DiffIndex.TrailingNewlineShowsOneMore`.
- On a line with several inline keys the scanner looks at the first one only, although its comment promises to report
  what the redactor hides (`Redaction.HiddenKeyIsNotReported`). Exactly: `Redaction.ScannerAgreesWithRedactor`.
- Content that quotes the end marker of a run is cached under another key than the same content in another run
  (`NormalPrompt.QuotedMarkerIsSeen`). Exactly: `NormalPrompt.BoundaryDoesNotMatter`.

## Model

| member | source | states |
|---|---|---|
| GatewayProtocol.StepBalances | src/server/services/llm-gateway.ts:485-567 | any step of any party keeps the books: cost is what unarmed requests hold, plus the reserved rows, plus what was spent, plus what was lost, and changes by exactly what the step books |
| GatewayProtocol.LeakTold | src/server/services/llm-gateway.ts:189-271 | which moves of a request leave its charge on the ledger for good |
| GatewayProtocol.ReturnTold | src/server/services/llm-gateway.ts:189-271 | which moves give a charge back directly, and which of them twice |
| GatewayProtocol.UndoTold | src/server/services/llm-gateway.ts:234-260 | which failures of an armed request undo its row, which have one more try, and which leave it to its job |
| GatewayProtocol.WriteTold | src/server/services/llm-gateway.ts:485-567 | when a row is armed, taken over or refunded, and that no other row changes |
| GatewayProtocol.DeliveryTold | src/server/services/llm-gateway.ts:618-642 | how far a handler gets with an event, and with which amounts |
| GatewayProtocol.SettlementTold | src/server/services/budget-manager.ts:44-166 | a settlement marks its row only if it is still reserved, and books work only then |
| GatewayConservation.StepKeepsArmings | src/server/services/budget-manager.ts:82-166 | no step settles an arming twice or mixes up two rows |
| GatewayConservation.Conservation | src/server/services/llm-gateway.ts:175-269 | over every run in which a job's estimate is fixed, without timing assumptions: cost equals held, reserved, spent, lost and leaked together, each arming is settled at most once, nothing is lost if and only if no reserved row was overwritten, and nothing is leaked if and only if no failing probe or refund left a charge behind |
| GatewayConservation.RestingCost | src/server/services/llm-gateway.ts:618-642 | when every request is over, however it ended, and every row settled, the cost is what was booked as spent, lost and leaked, and exactly what was booked if and only if no reserved row was overwritten and no charge leaked; what was not booked is `GatewayWork.RestingWork` |
| GatewayConservation.LostOnlyGrows | src/server/services/llm-gateway.ts:561-564 | what overwritten rows have lost never comes back, and it stays the same exactly if no reserved row is overwritten |
| GatewayConservation.LeakOnlyGrows | src/server/services/llm-gateway.ts:189-192 | a leaked charge never comes back, and there is one exactly if some step of the run, a failing probe or refund or a crash, leaves a charge behind |
| GatewayConservation.FailedProbeLeaksTheCharge | src/server/services/llm-gateway.ts:189-192 | a run that ends at rest with no row, nothing spent or overwritten, and the charge on the ledger |
| GatewayConservation.TwoRequestsReadingASettledRow | src/server/services/llm-gateway.ts:537-567 | a run of two requests that ends at rest with nothing spent and a positive cost |
| GatewayTiming.SoleArmer | src/server/services/llm-gateway.ts:543-551 | under the timing guards at most one request is between arming a row and enqueueing its job |
| GatewayTiming.StepOrderly | src/server/services/llm-gateway.ts:584-591 | every guarded step keeps the invariant that ties rows, jobs, events and requests of one arming together |
| GatewayTiming.GuardedConservation | src/server/services/budget-manager.ts:44-133 | with estimates that differ between requests, guarded runs lose nothing: cost is held, reserved, spent and what failing probes, refunds and crashes leaked |
| GatewayWork.StepTraced | src/server/services/llm-gateway.ts:618-642 | every step keeps the history of work in step with jobs, armed requests and handlers: an arming is enqueued and completes once at most, and what was spent is the sum of what was booked |
| GatewayWork.RestingWork | src/server/services/llm-gateway.ts:618-642 | with fixed estimates and no timing assumption: at rest the cost is what all completed jobs cost and direct users spent, without what was never booked, and with what was booked again, lost or leaked; and nothing is booked again exactly if no handler reconciles for an arming that was booked before |
| GatewayWork.StepTells | src/server/services/budget-manager.ts:82-166 | one guarded step leaves work unbooked for good exactly if it completes a job at a cost when its row is not reserved any more, or refunds the reserved row of a job that has completed at a cost |
| GatewayWork.PaidWorkIsBooked | src/server/services/llm-gateway.ts:252-260 | over all guarded runs, at rest: cost is the work of all completed jobs, without the unbooked, and with direct and leaked amounts; and nothing is unbooked if and only if no step of the run wastes work |
| GatewayWork.CarefulRefundsBookAll | src/server/services/llm-gateway.ts:252-260 | if no request refunds the row of a job that is live or has completed at a cost, all work is booked, however many events are late, doubled or dropped |
| GatewayWork.AbandonedJobIsNotBooked | src/server/services/llm-gateway.ts:252-260 | a guarded run in which a refunded live job completes at a cost of 5, and the ledger at rest has nothing on it |
| GatewayWork.UnheardJobIsNotBooked | src/server/services/llm-gateway.ts:543-567 | a guarded run in which the event of a completed job is dropped and its stale row is taken over, with the same end |
| GatewayWork.AbandonedJobMayFail | src/server/services/llm-gateway.ts:252-260 | a guarded run in which a live job's row is refunded and no work is wasted |
| GatewayDrift.StepOwns | src/server/services/budget-manager.ts:62-133 | every step of every run, with any amounts and estimates, changes what is owned by its amount up to its mismatch |
| GatewayDrift.DriftedConservation | src/server/services/llm-gateway.ts:175-269 | over every run whatever the cost is held, reserved, spent, lost, leaked and the drift of its steps: what each settlement missed its row's estimate by, and what the floor or the cut-off withheld |
| GatewayDrift.NoDriftExactly | src/server/services/budget-manager.ts:62-133 | with amounts below the cut-off no step drifts, and no floor bites, if and only if every settling step passes the estimate its row was armed with |
| GatewayDrift.DifferentEstimatesDrift | src/server/services/llm-gateway.ts:537-567 | a run of two requests for one job with estimates 5 and 8 that ends at rest with nothing spent or lost and a cost of 3 |
| GatewayRequest.LLMGateway.ProcessRequest | src/server/services/llm-gateway.ts:162-300 | how every request ends for its caller, an unsuccessful result being an error on every path, and what it leaves: the charge refunded exactly once or covered by the open row of its job, except exactly on the leaking exits; an open row with its job in the queue, except exactly if the request is stranded; which errors leave an open row with its job in the queue; an answer only with a job in the queue; the slot returned exactly on the deduplicated and failed exits; a fresh row of another request left alone; and no row of another job, no other counter and nothing but the cost of its own counter changed |
| GatewayRequest.LLMGateway.ServeReserved | src/server/services/llm-gateway.ts:189-197 | the same from the state the reservation left: exit, queue, row and the day's windows exactly |
| GatewayRequest.LLMGateway.EnqueueAndWait | src/server/services/llm-gateway.ts:197-271 | what the three flags and the two nested handlers leave of charge, row, queue and slot on each exit, and which exit it is |
| GatewayRequest.LLMGateway.PrepareAndEnqueue | src/server/services/llm-gateway.ts:198-249 | where the part that may throw leaves the three flags, and with them charge, row, queue and slot |
| GatewayRequest.LLMGateway.EnqueuePrepared | src/server/services/llm-gateway.ts:216-249 | the queue holds the job unless it refused it, and an existing job or a failed enqueue refunds the request's own row once |
| GatewayRequest.LLMGateway.PreparePersistentBudgetReservation | src/server/services/llm-gateway.ts:485-535 | row, counter and outcome situation by situation: no row, a fresh or a shared one, and one that another request creates in between |
| GatewayRequest.LLMGateway.PrepareFromExistingBudgetReservation | src/server/services/llm-gateway.ts:537-567 | a reserved row is shared if its job is there, left alone while it is fresh, and else refunded before it is overwritten; a settled one is just overwritten |
| GatewayRequest.StrandedRequest | src/server/services/llm-gateway.ts:216-234 | an environment in which a request ends with an open row, no job in the queue, and its estimate on the counter |
| GatewayRequest.EndsWithoutReservation | src/server/services/llm-gateway.ts:162-187 | what ends a request before it has reserved anything, cause by cause |
| GatewayRequest.SecondProbeDecides | src/server/services/llm-gateway.ts:189-197 | what a failing second probe, and one that finds a job, mean for caller, charge and slot |
| GatewayRequest.UnarmedRequestFails | src/server/services/llm-gateway.ts:485-567 | a fresh row of another request, or a failing database call before the row is armed, ends in an error and gives the charge back |
| GatewayRequest.ReservedRowIsShared | src/server/services/llm-gateway.ts:537-548 | a reserved row whose job is found is shared, and the charge goes back |
| GatewayRequest.ArmedRequestEnqueues | src/server/services/llm-gateway.ts:216-271 | in every other situation the row is armed, and the answer of the queue decides exit, slot and row |
| GatewayRequest.OverwrittenIsStale | src/server/services/llm-gateway.ts:552-564 | an estimate goes missing exactly if the refund of a stale row fails silently, and it is that row's |
| Ledger.BudgetService.ReserveUsage | src/server/services/budget.ts:72-174 | the transaction is the reservation of money and slot together, and an alert is written exactly if the amount is allowed and the new cost is over the threshold of a positive limit |
| Ledger.BudgetService.CleanupExpiredWindows | src/server/services/budget.ts:50-70 | old windows go, at most once an hour |
| Ledger.BudgetService.RefundUsage | src/server/services/budget.ts:354-372 | the counter is given back the amount and stays at zero or above |
| Ledger.BudgetService.RefundRateLimit | src/server/services/budget.ts:381-397 | the slot of the day is given back |
| Ledger.BudgetService.DeductBudget | src/server/services/budget.ts:230-276 | the counter grows by the amount, without a cap, also if the call fails late on its alert; and the alert is written exactly when the new cost is over the threshold and nothing failed |
| Ledger.BudgetManager.ReconcileUsage | src/server/services/budget-manager.ts:44-80 | the row still reserved is marked once and its estimate replaced by the actual cost, or nothing changes; nothing changes for a blank id, a missing row, another organisation's, or one that is settled |
| Ledger.BudgetManager.Refund | src/server/services/budget-manager.ts:117-133 | the row still reserved is marked once and its estimate given back, or nothing changes; nothing changes for a blank id, a missing row, another organisation's, or one that is settled |
| Ledger.ReserveAllOrNothing | src/server/services/budget.ts:79-163 | a reservation is denied exactly for want of budget or of a slot, and then leaves no trace; an allowed one empties a counter that is due, dates its next reset, and moves both counters by exactly one reservation and nothing else |
| Ledger.RefundUndoesReserve | src/server/services/budget.ts:354-397 | refunding money and slot undoes an allowed reservation exactly |
| Ledger.ReconcileReplacesEstimate | src/server/services/budget-manager.ts:62-78 | reconciling leaves exactly the actual cost of the reservation on the counter |
| Ledger.OpKeepsWindows | src/server/services/budget.ts:145-154 | no call takes a window over its maximum or below zero |
| Ledger.CapBound | src/server/services/budget.ts:79-163 | over any calls the cost stays between zero and the limit plus the overages booked since the last reset, and every window within its maximum |
| Ledger.CapBoundIsTight | src/server/services/budget.ts:230-251 | the bound is reached, for every limit and every overage |
| Ledger.ResetsEmpty | src/server/services/budget.ts:84-92 | a reset empties the counters it is meant for, dates the next reset, and changes nothing else |
| Ledger.RecentWindowsStay | src/server/services/budget.ts:50-70 | exactly the windows of the last seven days stay, as they are |
| Ledger.AmountsMoveCost | src/server/services/budget-manager.ts:168-209 | by how much a refund or an overage moves the counter, the cut-off and the floor included, and that nothing else changes |
| Ledger.MonthlyCap | src/server/services/budget.ts:79-94 | over any calls within one month a counter is emptied at most once, and the estimates allowed on it, with the cost carried in, come to its limit and what was given back or booked over it at most |
| HostedBilling.ReviewProcessor.ProcessReview | src/queue/review-processor.ts:129-217 | a hosted review costs exactly what it owes on every path, a reconciliation that fails early or late included, keeps its slot exactly if the model ran, leaves no trace when it is denied, and changes no other counter |
| HostedBilling.ReviewProcessor.TryReserve | src/queue/review-processor.ts:131-148 | a failing budget system reserves nothing and lets the review go on |
| HostedBilling.ReviewProcessor.Reconcile | src/queue/review-processor.ts:196-217 | the reserved estimate is replaced by the actual cost, unless the call fails before it books anything |
| HostedBilling.ReviewProcessor.RefundReservedUsage | src/queue/review-processor.ts:362-378 | money and slot are given back independently of each other |
| HostedBilling.OwedTold | src/queue/review-processor.ts:131-217 | what a review owes and whether its slot stays used, situation by situation |
| HostedBilling.SlotComesBackTheSameDayOnly | src/queue/review-processor.ts:373-377 | the counts are restored if and only if the review ends on the day on which it began |
| Ingest.StepKeepsCharges | src/server/routes/ingest.ts:169-203 | every step, crashes and failing refunds included, keeps the charges in step with the review, the holder and what was dropped |
| Ingest.RunKeepsInvariant | src/server/routes/ingest.ts:367-400 | every run within the lifetime of the lock keeps the lock row its holder's own, and the charges following the dropped ones |
| Ingest.ChargesAddUp | src/server/routes/ingest.ts:169-203 | over any concurrent deliveries the charges are the dropped ones, and one more exactly if the review exists or the present holder has reserved |
| Ingest.ChargedAtMostOnce | src/server/routes/ingest.ts:169-203 | the review is charged at most once, and once exactly when it should be, if and only if no delivery dropped its charge |
| Ingest.FailedRefundChargesTwice | src/server/routes/ingest.ts:336-347 | a run without any passing of time in which a refund fails and one review is charged twice |
| Ingest.OnlyTheHolderReleases | src/server/routes/ingest.ts:354-361 | while a delivery is in its lock, no step but its own release changes the lock row |
| Ingest.LateHolderChargesTwice | src/server/routes/ingest.ts:367-400 | a run in which a holder outlives its lock and one review is charged twice |
| Ingest.EventTold | src/server/routes/ingest.ts:169-361 | what each event of a delivery changes of review, charges and lock row, and that a delivery is refused exactly while a valid lock row is there |
| Ingest.InLockTold | src/server/routes/ingest.ts:182-361 | how a delivery in the lock goes on: a denied or failed one writes nothing, a failed write is refunded if it had reserved, and each then lets go |
| Ingest.LockIsLetGo | src/server/routes/ingest.ts:354-361 | within the lifetime of the lock its row outlives a delivery only if the release failed or the process crashed |
| HostedReview.IncrementalReviewCoversEverything | src/queue/review-processor.ts:82-109 | over any interleaving of jobs, skips and failures, every path whose content at the stored head differs from base was offered with exactly that content |
| HostedReview.HistoryFollowsSteps | src/queue/review-context.ts:48-71 | what was offered and what was reviewed, told by the steps of the run: a content was reviewed exactly if not every step that offered it skipped it |
| HostedReview.ReviewedUnlessSkipped | src/queue/review-context.ts:48-71 | a path that differs from base at the stored head was offered with its content there, and reviewed with it if and only if not every run that offered that content skipped it |
| HostedReview.SkippedOnceNeverReviewed | src/queue/review-processor.ts:286-290 | a run in which a skipped file is never reviewed |
| HostedReview.ChecksTold | src/queue/review-processor.ts:82-98 | a job goes on exactly if its head is current, not reviewed yet, and not being reviewed |
| HostedReview.CompareTold | src/queue/review-processor.ts:103-109 | a job compares with the head it found stored, if there is one and the comparison is available, and then names exactly the paths that differ |
| HostedReview.ReviewTold | src/queue/review-context.ts:48-71 | exactly what a job offers and what it reviews |
| HostedReview.OneJobPerHead | src/queue/review-processor.ts:95-98 | over any interleaving at most one job reviews a head at a time, and a lock is there exactly while one does |
| HostedContext.EnforceBudget | src/queue/review-context.ts:99-109 | the entries in place after the pass are exactly those of the greedy choice |
| HostedContext.ReviewableFitTheBudget | src/queue/review-context.ts:99-115 | the reviewable files fit the budget together, and none that lost its content fits in what remains |
| HostedContext.PoolTerminates | src/queue/review-context.ts:118-132 | there are as many workers as items, up to the limit; a schedule can go on unless all have left, and ends after exactly two steps an item and one a worker |
| HostedContext.PoolIsScheduleIndependent | src/queue/review-context.ts:77-92 | at any time no item is started twice and at most the limit are in flight; at the end each was fetched once and the entries are those of sequential fetching |
| HostedContext.PoolLoadsTheCandidates | src/queue/review-context.ts:48-94 | whatever the schedule, each selected file comes to its own status or content |
| HostedContext.ReviewedExactly | src/queue/review-context.ts:48-115 | a file is reviewed only if it was not removed, not ignored, has a patch and could be fetched within the limit, and then with that content; such a file is reviewed or marked over budget |
| HostedContext.FinishContext | src/queue/review-context.ts:99-115 | any finished pool ends in the one context |
| HostedContext.EstimateCovers | src/core/context-builder.ts:17-19 | the estimate is the least number of tokens that covers the bytes |
| HostedContext.SelectedTold | src/queue/review-context.ts:53-71 | which files are selected, each in its place, and what each is before anything is fetched |
| HostedContext.StatusTold | src/queue/review-context.ts:57-115 | the status of every file, cause by cause |
| Budget.GreedyIsTight | src/memory/retrieval.ts:69-79 | nothing passed over fits in what remains in the end |
| Budget.GreedyIsLexicographicallyBest | src/memory/retrieval.ts:69-79 | every other choice within the budget leaves the first item on which it differs |
| Retrieval.ScoreIsPriority | src/memory/retrieval.ts:46-62 | comparing scores is comparing pinned, rule, repository and capped evidence in turn |
| Retrieval.RankedByPriority | src/memory/retrieval.ts:33-67 | no card comes before one that outranks it, and equals are in title order |
| Retrieval.RankedAreTheEligible | src/memory/retrieval.ts:33-66 | the ranking holds each eligible card as often as it was given, and no other |
| Retrieval.RetrieveCards | src/memory/retrieval.ts:27-80 | the loop selects the greedy choice over the ranking, each card with its reason |
| Retrieval.RetrievedAreEligible | src/memory/retrieval.ts:46-64 | every retrieved card is one of the given cards, eligible, and comes with its own reason |
| Retrieval.ReasonTellsLevels | src/memory/retrieval.ts:46-64 | two cards have the same reason exactly if they agree on all levels of the priority but evidence |
| Retrieval.ReasonTold | src/memory/retrieval.ts:46-64 | the words of a reason, for every card |
| Retrieval.RetrievalIsBest | src/memory/retrieval.ts:20-26 | the selection keeps to the budget, is tight, and is best in priority order |
| Retrieval.EligibleTold | src/memory/retrieval.ts:33-44 | a card of another repository, or a rule card outside the review's rules, is out, and every other one in |
| Retrieval.OutranksTold | src/memory/retrieval.ts:46-62 | what makes one card outrank another, level by level |
| DiffIndex.HeaderRoundTrip | src/github/line-mapping.ts:24-46 | every rendered hunk header is parsed back to its two starts |
| DiffIndex.BuildFileDiffIndex | src/github/line-mapping.ts:27-77 | the loop computes the scan of the patch's lines |
| DiffIndex.HunkIsContiguous | src/github/line-mapping.ts:5-10 | the lines a hunk shows on a side are one interval of the length its header gives |
| DiffIndex.IndexRecoversScript | src/github/line-mapping.ts:27-77 | from the text of any ordered script the index recovers exactly the positions of its operations and their hunks |
| DiffIndex.TrailingNewlineShowsOneMore | src/github/line-mapping.ts:41-73 | a newline at the end of a patch adds one context line on each side |
| ChangedRanges.CanonicalIsUnique | src/core/diff.ts:74-96 | a set of lines has one sorted, disjoint, non-adjacent cover |
| ChangedRanges.RunsAreCanonical | src/github/line-mapping.ts:163-177 | coalescing ascending lines gives the canonical cover |
| ChangedRanges.CoverIsCanonical | src/core/diff.ts:74-96 | what both extractors compute is the one canonical cover |
| ChangedRanges.ChangedRangesFromPatch | src/github/line-mapping.ts:163-177 | the loop that extends the last range in place gives the canonical cover of the added lines |
| ChangedRanges.Coalesce | src/core/diff.ts:74-96 | the loop with a running start and end gives the canonical cover of the lines, in any order and with repetitions |
| ChangedRanges.TaggedOutsideTheChange | src/core/pipeline.ts:134-147 | a finding is tagged exactly when its file has added lines and none of them is the finding's |
| UnifiedDiff.ParseUnifiedDiff | src/core/diff.ts:17-72 | the loop computes the parse of the diff's lines |
| UnifiedDiff.ExtractorsAgree | src/core/diff.ts:17-72 | from git's diff of any number of files, quoted paths included, each file with hunks and a new path is reported in order, with exactly the ranges of its own patch |
| UnifiedDiff.ExtractorsAgreeExactly | src/core/diff.ts:37-43 | on a diff of any number of files the extractors agree if and only if no added line of any file begins with "++ " |
| UnifiedDiff.NameIsRead | src/core/diff.ts:37-43 | under which path a file is reported: without white space at its end, and in quotes if git quotes it |
| UnifiedDiff.BarePathIsReadExactly | src/core/diff.ts:37-43 | an unquoted path is reported as it is if and only if it does not end in white space |
| UnifiedDiff.AddedSize | src/github/line-mapping.ts:55-59 | a script adds as many distinct lines as it has added operations |
| LineMapping.BuildDiffIndex | src/github/line-mapping.ts:80-89 | a name is in the index exactly if some file of that name has a patch, and then with the index of its last patch |
| LineMapping.IndexHasTheLastPatch | src/github/line-mapping.ts:80-89 | the same of the function, for one name |
| LineMapping.IndexOfFilesRecoversScripts | src/github/line-mapping.ts:80-89 | for a file whose patch renders a script, the index of its name holds exactly the positions of that script |
| LineMapping.MapRangeToComment | src/github/line-mapping.ts:110-157 | the loop decides full visibility of the range |
| LineMapping.MappingIsExact | src/github/line-mapping.ts:104-157 | a range maps exactly when its last line is visible, wholly exactly when one hunk shows both ends, and the comment then covers its own lines, with a first line exactly if there is more than one |
| LineMapping.IsRangeFullyAdded | src/github/line-mapping.ts:184-206 | the loop decides eligibility of the range |
| LineMapping.FullyAddedIsExact | src/github/line-mapping.ts:179-206 | a range is eligible exactly when one hunk adds every line of it |
| LineMapping.BuildSuggestionBlock | src/github/suggestions.ts:11-29 | the guards in order compute the block about which the next rows speak |
| LineMapping.SuggestionReplacesTheRange | src/github/suggestions.ts:4-10 | whenever there is a block, the range maps fully on the new side and the comment covers exactly the finding's lines, all of them added |
| LineMapping.SuggestionParsesBack | src/github/suggestions.ts:17-28 | a reader of the block gets back the replacement as it was, without one line break at its end if it has one there |
| LineMapping.OutsideTheDiff | src/github/line-mapping.ts:110-114 | a range is outside the diff exactly if no file of its name has a patch |
| LineMapping.SuggestionIsEligible | src/github/suggestions.ts:11-25 | there is a block exactly if the replacement is neither blank nor fenced and one hunk adds every line of the range |
| CommentMarkers.ExtractPostedFingerprints | src/github/comments.ts:37-45 | the loops collect the fingerprints of all markers of all comments |
| CommentMarkers.SanitizeKeeps | src/github/comments.ts:26-28 | sanitizing leaves exactly the well-formed fingerprints as they are |
| CommentMarkers.BuildInlineCommentBody | src/github/comments.ts:53-82 | the pushes build the lines of the body, the marker last |
| CommentMarkers.BodyCarriesFingerprint | src/github/comments.ts:18-45 | of marker-free text a body yields its own fingerprint and no other, if and only if the fingerprint is well formed |
| CommentMarkers.SanitizeTold | src/github/comments.ts:26-28 | a fingerprint keeps its marker characters in order, the first 128 of them |
| CommentMarkers.ExtractExactly | src/github/comments.ts:37-45 | a fingerprint is read from a text exactly if it consists of marker characters and its marker stands somewhere in the text |
| CommentMarkers.BodyTold | src/github/comments.ts:53-82 | the body as one text: title, severity, category and message, each labelled part there is, and the marker |
| Posting.ClassifyFindings | src/github/post.ts:50-90 | the loop computes the classification of all findings |
| Posting.PullRequest.PostReview | src/github/post.ts:40-122 | a run appends exactly the drafted comments and updates or creates the summary; whichever call fails, reading or writing, before its effect or, for the review, after it, what is then posted and whether the run fails |
| Posting.RunPostsTheFirst | src/github/post.ts:56-90 | a run drafts the first mappable findings not posted yet, up to the budget |
| Posting.RunCountsAddUp | src/github/post.ts:114-121 | skipped, drafted and newly summarized findings add up to the report |
| Posting.SummaryStaysSingle | src/github/post.ts:92-108 | a run adds a summary exactly when there is none or the update fails, and touches no unmarked comment |
| Posting.RerunsConverge | src/github/post.ts:35-39 | whatever was commented before, after any runs of which some post nothing exactly the first successes times budget pending findings are posted, each once and in order |
| Posting.RunTold | src/github/post.ts:50-90 | what becomes of every finding of a report: skipped, drafted at its place, or in the summary at its place with its own reason |
| Posting.RunIsCapped | src/github/post.ts:124-139 | the number of drafts for every configuration of the budget |
| Posting.DraftTold | src/github/post.ts:69-89 | path, line, side, first line and body of a draft, and exactly when it offers the replacement |
| Posting.SummaryFound | src/github/comments.ts:48-50 | the summary found is the first comment with the marker in it |
| Posting.SummaryTold | src/github/post.ts:96-108 | it is replaced in place unless the update fails; else one is added at the end |
| Posting.SummaryFits | src/github/comments.ts:12-15 | a summary never exceeds the size the provider accepts, and only one that is too long is cut |
| PromptFence.NeutralizedHasNoMarker | src/core/prompt.ts:49-52 | no output of neutralizing has the end marker in it, not even across a replacement |
| PromptFence.NeutralizeKeepsTheRest | src/core/prompt.ts:49-52 | exactly the texts with an end marker are changed |
| PromptFence.BuildUser | src/core/prompt.ts:89-131 | the pushes build the sections of the prompt |
| PromptFence.RenderSignals | src/core/prompt.ts:133-142 | the loop builds the block of the signals |
| PromptFence.SanitizedIsOneLine | src/core/prompt.ts:174-176 | a sanitized value has no line break |
| PromptFence.PromptParsesBack | src/core/prompt.ts:63-66 | for every input a reader gets back exactly the blocks the builder wrote |
| PromptText.HeadersTold | src/core/prompt.ts:96-136 | the header lines of the blocks that stand once, and the end line |
| PromptText.ContentTold | src/core/prompt.ts:158-164 | the content of a file block is the redacted text, or the text itself if redaction is off, with the end marker taken out |
| PromptText.FileHeaderTold | src/core/prompt.ts:144-162 | the header line of a file block |
| PromptText.RangesTold | src/core/prompt.ts:145-148 | the changed lines in a header |
| PromptText.RegionsTold | src/core/prompt.ts:151-156 | the changed regions in a header |
| PromptText.SignalTold | src/core/prompt.ts:133-142 | the line of a signal |
| PromptText.CardsTold | src/core/prompt.ts:105-113 | the lines of the memory cards, numbered |
| PromptText.PlainValueStays | src/core/prompt.ts:174-176 | a value in one line, without quotes and without white space at its ends, stays as it is |
| Redaction.RedactSecrets | src/core/redact.ts:55-123 | the loop over the lines computes the redacted lines and their count |
| Redaction.ScanSecrets | src/core/redact.ts:179-242 | the loop over the lines computes the reports, from the same state the redactor has after each line |
| Redaction.LineAgrees | src/core/redact.ts:60-120 | in one state a line is reported exactly when it is changed, except if it hides a key, and an unchanged line is as it was |
| Redaction.ScannerAgreesWithRedactor | src/core/redact.ts:171-178 | on every line of every text a report means a replacement, and a replacement without a report means exactly a hidden key |
| Redaction.RedactionKeepsLines | src/core/redact.ts:46-54 | the redacted text has the same number of lines, each the redaction of its own |
| Redaction.HiddenKeyIsNotReported | src/core/redact.ts:188-194 | however the expressions match elsewhere: a line on which they find an empty and a full key is redacted and not reported |
| RedactedText.LineTold | src/core/redact.ts:60-120 | the redacted line, told from the matches: every assignment that is not exempt, every token and every key body has the placeholder in its place, and all else is kept |
| RedactedText.StateTold | src/core/redact.ts:73-88 | a key block is open exactly behind a line that only begins one, up to a line that only ends one |
| RedactedText.TextTold | src/core/redact.ts:55-123 | every line is redacted in the state of its place, and the counts add up |
| RedactedText.ScanTold | src/core/redact.ts:179-242 | every line is scanned in the same state, and its reports carry its number |
| RedactedText.CredentialsTold | src/core/redact.ts:216-231 | the reported credentials are the assignments that are not exempt, in order and by name |
| RedactedText.TokensReported | src/core/redact.ts:233-238 | every match of every token pattern is reported, by its pattern |
| RedactedText.ReportsTold | src/core/redact.ts:183-239 | what is reported of a line, situation by situation |
| CacheKey.BuildKey | src/core/cache.ts:12-20 | feeding the hash part by part is hashing the framed parts |
| CacheKey.FrameRoundTrip | src/core/cache.ts:6-11 | whatever was framed is read back part by part |
| CacheKey.KeysAreUnique | src/core/cache.ts:6-20 | without collisions keys agree exactly when the encoded parts do |
| NormalPrompt.NormalizeSplits | src/core/llm-cache.ts:52-56 | a character outside words cuts a prompt in two that are normalized apart |
| NormalPrompt.NeutralizedTells | src/core/prompt.ts:49-52 | a text neutralized under two boundaries is normalized alike exactly if it has neither end marker in it, and parts at a definite place else |
| NormalPrompt.BoundaryDoesNotMatter | src/core/llm-cache.ts:52-56 | one review under two boundaries is one prompt to the cache if and only if none of the texts it shows has the end marker of either boundary in it |
| NormalPrompt.QuotedMarkerIsSeen | src/core/llm-cache.ts:52-56 | a rule that quotes one of the markers makes two prompts of one review |
| NormalPrompt.SystemPromptIsSame | src/core/prompt.ts:54-87 | the system prompt, which quotes the markers, is one prompt to the cache under any two boundaries |
| LlmCache.ReadCachedFindings | src/core/llm-cache.ts:35-50 | the loop gives back all findings parsed, or nothing as soon as one is not valid |
| LlmCache.CachedProvider.Review | src/core/llm-cache.ts:15-31 | an answer comes from the cache without a call, or from the provider and is kept |
| LlmCache.CacheIsTransparentExactly | src/core/llm-cache.ts:6-31 | over any calls to any providers on one cache, losses and spoiled entries, the cache cannot be told from the providers if and only if every answer is read back as it was or not at all |
| LlmCache.SameReviewIsAnsweredFromCache | src/core/llm-cache.ts:6-11 | the same review under another boundary gets the first answer without a model call, if its texts quote neither end marker |
| LlmCache.SecondCallIsSavedExactly | src/core/llm-cache.ts:6-11 | and, unless that very prompt was cached before, only then |
| LlmCache.KeysTellProvidersApart | src/core/llm-cache.ts:16-23 | two providers have one key for two requests exactly if version, name, model and both normalized prompts agree |
| LlmCache.KeysAreOfTheirKind | src/core/llm-cache.ts:16-23 | only six parts that begin with the name of the kind have such a key |
| LlmCache.AnswerTold | src/core/llm-cache.ts:24-30 | the model is asked exactly if the cache has no list under the key or one with an invalid finding; the answer and the cache afterwards either way |
| EvalMatching.MatchFindings | src/eval/score.ts:54-74 | the loop computes the greedy assignment and what it leaves on both sides |
| EvalMatching.AssignIsOneToOne | src/eval/score.ts:50-53 | no finding serves two expectations, and each pair matches |
| EvalMatching.AssignIsMaximal | src/eval/score.ts:62-70 | no compatible pair is left on both sides |
| EvalMatching.GreedyIsHalfOptimal | src/eval/score.ts:54-74 | the assignment has at least half the size of every one-to-one matching |
| EvalMatching.HalfIsTight | src/eval/score.ts:54-74 | an input on which it has exactly half |
| EvalMatching.MatchCounts | src/eval/score.ts:72-73 | matched and unmatched add up on both sides |
| EvalMatching.ScoreFixture | src/eval/score.ts:77-102 | the counters of a fixture, and that they add up |
| EvalMatching.AggregateAddsUp | src/eval/score.ts:105-124 | the totals add up over all fixtures |
| EvalMatching.MatchTold | src/eval/score.ts:26-48 | a finding matches an expectation exactly if it is in the same file, shares a line with it, and meets every constraint given |
| EvalMatching.AssignIsGreedy | src/eval/score.ts:62-70 | each expectation gets the first matching finding that no earlier one has, or none if there is none |
| EvalMatching.PairsTold | src/eval/score.ts:66-69 | which finding is paired with which expectation |
| EvalMatching.UnusedTold | src/eval/score.ts:72 | the findings left over, in order |
| EvalMatching.RangesAreCounted | src/eval/score.ts:80-87 | the range matches are the pairs with both lines equal |
| EvalMatching.CriticalsAreCounted | src/eval/score.ts:89-91 | the missed criticals are the unmatched expectations of that severity |
| EvalMatching.AggregateTold | src/eval/score.ts:105-124 | the totals are sums over all fixtures |
| EvalMatching.RangeAccuracyTold | src/eval/score.ts:111-122 | the range accuracy is the proportion of the matching ranges of all fixtures, or one if there is nothing to compare |
| EvalMatching.RatesTold | src/eval/score.ts:120-121 | precision and recall are the proportions of the true positives, or one if there is nothing to compare |
| LoginThrottle.Throttle.IsLockedOut | src/server/auth/login-throttle.ts:21-24 | a key is locked out exactly while its lock lasts, the end excluded |
| LoginThrottle.Throttle.RecordSuccess | src/server/auth/login-throttle.ts:38-40 | a success forgets the key and no other |
| LoginThrottle.Throttle.RecordFailure | src/server/auth/login-throttle.ts:26-36 | the record after a failure |
| LoginThrottle.AttemptTold | src/server/auth/login-throttle.ts:21-40 | what one attempt changes: nothing while the key is locked, else a success forgets it, and a failure counts in its window or begins one, the fifth locking it |
| LoginThrottle.NineFailuresSpanAWindow | src/server/auth/login-throttle.ts:26-36 | nine recorded failures in a row never fit into one window length |
| LoginThrottle.ThrottleBound | src/server/auth/login-throttle.ts:21-40 | over any attempts in order of time, without a success on the key, an interval of one window length admits at most eight failures |
| LoginThrottle.ThrottleBoundIsTight | src/server/auth/login-throttle.ts:21-40 | attempts that reach eight |
| LoginThrottle.KeysAreIndependent | src/server/routes/auth.ts:51-70 | an attempt on one key does not touch another |

## Left out

- GatewayTiming.GuardedConservation: assumes the timing guards (one request arms a row at a time, an armed request enqueues or fails within the staleness limit, all events of an arming come before the next, a request that stops waiting still owns the row's arming), because without them a row can be overwritten or settled with another request's estimate; what happens then is `GatewayDrift.DriftedConservation`.
- GatewayWork.PaidWorkIsBooked: assumes the same guards, because without them a handler of one arming may settle another; `GatewayWork.RestingWork` assumes none, but then says by amounts only what was not booked.
- GatewayConservation.Conservation: assumes no month rollover in the run and amounts below the clamp of 999999999, because the reset of `checkBudget` reads and then writes.
- GatewayRequest.LLMGateway.ProcessRequest: takes the whole request as happening on one day and in one month, because the step system covers the interleavings.
- Ledger.MonthlyCap: takes the start of the next month, which each call computes from its time, as one instant for all calls of the month; which instant that is, is a parameter.
- Ledger.CapBound: leaves out `incrementRateLimit`, which nothing calls and which has no bound.
- HostedReview.IncrementalReviewCoversEverything: takes the base commit as fixed, a comparison that is available as accurate, and the file list as that of the job's own head, where the program lists the pull request's present head; a renamed file is one path gone and one new here, where the program lists its new path.
- Ingest.ChargedAtMostOnce: takes every holder as finishing within the time its lock is valid; what happens otherwise is `Ingest.LateHolderChargesTwice`.
- LoginThrottle.ThrottleBound: takes attempts one after the other; between the check and the record of one attempt others may come in the program.
- LlmCache.CacheIsTransparentExactly: takes providers on one cache that agree on version, name and model name as asking the same model; the hash as free of collisions, the texts as without lone surrogates (UTF-8 encodes all of those alike, and else is injective), and the model as depending on the prompt only up to its boundary; `LlmCache.SecondCallIsSavedExactly` takes the same.
- NormalPrompt.BoundaryDoesNotMatter: that the boundary is drawn at random, so that content can hardly quote it, is probability and is not modelled.
- Posting.RerunsConverge: the findings of a report have different fingerprints, all well formed, and their texts begin no marker; a report and a diff stay the same over the runs.
- Redaction.LineAgrees: the regular expressions are functions that say where they match, in `Redaction.HiddenKeyIsNotReported` too; their engines are not modelled.
- Posting.PullRequest.PostReview: the text of the summary after its marker is a parameter.
- Retrieval.RankedByPriority: the collation of titles is any total order.
- UnifiedDiff.ExtractorsAgreeExactly: a file without a path to report, as a deleted file is, adds no line that begins with "++ ".
- DiffIndex.IndexRecoversScript: line numbers are unbounded; the program's numbers are exact up to 2^53.
- Refunds do happen eventually: a failed job that is removed before its event is handled keeps its row reserved until another request takes it over; only safety is proved.
- Databases, queues, caches and code hosts are atomic steps or parameters; the time stamp by which a queue tells a new job from an old one is taken as honest.
- Rounding of money: amounts are integers here and decimals in the program.
- The texts of reasons, headlines and tables in summaries, and the fixed lines of the system prompt.
- Attributes in a block header: that a reader can take the quoted values apart is not claimed; a value that ends in a backslash is ambiguous.
- Cache directories and their path checks, encryption, hashing and password checks, integrations, the web pages, the command line, rule cards, ranking, calibration, suppression and the model router.
- The local context builder, which repeats the budget loop of the hosted one around files and git.
