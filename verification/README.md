# Verified models of the CRM's shared-state protocols

A CRM backend and frontend whose riskiest code is a handful of small concurrent protocols over one
shared store: a Redis key, a promise chain, a database row or a broadcast channel. Each is modelled here
as an object with the source's own fields and operations, proved against a function that gives its next
state, and as a transition system over those functions whose steps are the atomic Redis, database or
event-loop actions. The main results hold over every run.

`dafny verify dfyconfig.toml` checks everything.

| file | protocol |
|---|---|
| LeaderElection | the Redis lease that elects the one payment listener |
| Deposits, DepositProperties, DepositAgreement | crediting USDC transfers, live and by reconciliation |
| DepositRaces | the same for one payment whose jobs overlap |
| SerialChain, SerialChainProperties, SerialGap | the promise chain in front of every LLM call, for both services that use it |
| ResponseCache | the queue's caches |
| GlobalSemaphore, Replicas | the executor's cross-replica counter, alone and under the chains of all replicas |
| CopilotTabs | one request slot per browser tab and TAKEOVER broadcasts between tabs |
| WindowLog, SlidingWindow, CircuitBreaker | trimmed sorted sets against full histories |
| RedisCounter, UserSlots | concurrent AI requests per user |
| BlockPolling, RefreshSessions, TokenBudget, LeadBatch | block ranges, token rotation, quota, cursor paging |
| Common, Tiers | shared types |

## Assumptions

- One nondecreasing clock is shared by all processes and Redis; a key with a TTL is visible up to and
  including its expiry time. Redis and the database do not fail, except where a lost reply or a crash is a step.
- Sorted-set members are unique and hashes injective (`SlidingWindow.AdmissionCountedIff` shows why
  the first is needed).
- Deposits: amounts are integer atomic units. Deposits, DepositProperties and DepositAgreement assume that jobs
  and reconciliations of one payment do not overlap and that each payment has its own deposit address. The code
  guarantees neither: the worker runs five jobs at a time, and
  crm-backend/src/modules/payments/payments.service.ts:89 gives every payment the address of its wallet.
  DepositRaces drops the first assumption and says exactly what the total is then;
  `DepositProperties.SharedAddressCreditsTwiceIff` says what happens without the second. Unique is only the
  payment's `txHash` (crm-backend/prisma/schema.prisma:1032), which makes the second payment settled by one
  transaction fail; `DepositAgreement.AgreementIff` says when that sets the two ways of crediting apart, and
  `AgreementCanFail` gives a case.

## Where code and documentation disagree

The model follows the code; each item is a lemma.

- A shutdown during an unfinished activation releases the lease while ingestion still starts, so two
  instances serve (`LeaderElection.ReleaseIsSafeIffClean`, with a run in `ShutdownDuringActivationSplits`).
- Reconciliation is documented to guarantee that no deposit is permanently missed
  (crm-backend/src/jobs/workers/reconciliation.worker.ts:4-5). A transfer recorded by a job that then stops,
  or that fails on a taken `txHash`, is skipped by every later job and scan
  (`DepositProperties.DeliveryLostIff`, `LostForever`; runs in `CrashLosesADeposit`,
  `SharedTransactionLosesADeposit`). So is one whose amount an overlapping job overwrites
  (`DepositRaces.OverwrittenForever`, `OverlapLosesADeposit`, `StaleReconciliationLosesADeposit`).
- The state machine is documented to guard every transition (crm-backend/src/jobs/workers/blockchain-events.worker.ts:21).
  The status check and the store are separate, so a settled payment can go back to PARTIAL (`DepositRaces.SettledPaymentReopens`).
- reconcilePayment is documented to return true if the payment moved to CONFIRMING
  (crm-backend/src/jobs/workers/reconciliation.worker.ts:172). One that closed since its row was fetched counts as
  recovered untouched (`DepositProperties.ReconciliationReport`).
- The global semaphore's TTL starts only when the counter leaves zero, so sustained load, not only a crash,
  resets it and overfills the limit (`GlobalSemaphore.CountSurvivesTimeIff`, `ShortCallsCanOverfill`).
- The 300 ms gap between consecutive calls is not kept after a failed call
  (`SerialGap.GapAfterLastCallIff`, `FailureLosesTheGap`).
- Deduplicated callers each store the shared result, and each store evicts: a full cache shrinks
  (`ResponseCache.StoreShrinksIff`, `QueueCaches`).
- A TAKEOVER older than a tab's own request cancels that request, so the newest request can be lost with
  none left (`CopilotTabs.LatestSurvivesIff`, `CrossingSendsLoseBoth`).
- HALF_OPEN is documented to let one request through (crm-backend/src/core/resilience/circuit-breaker.service.ts:10);
  it lets all through (`CircuitBreaker.EntersWhileHalfOpen`). A failed probe reopens the circuit only while
  enough failures are still inside the window, for polygon after a burst never
  (`ProbeFailureReopensIff`, `WhichProbesReopen`).
- consumeRefreshSession is documented as atomic. Uses of one token that overlap before the first deletes the
  session are not recognised as reuse (`RefreshSessions.ReuseDetectedIff`, `OverlappingUsesGoUnnoticed`,
  with a run in `OverlappingUsesHappen`).
- Transfer events are documented as not to be lost (crm-backend/src/core/queue/queue.constants.ts:82). The listener
  skips a block range whose query failed, and the events in it never reach the queue
  (`BlockPolling.EnqueuedOnce`, `FailedQueryLosesALog`).

## Operations

Each of these methods changes its object exactly as the next-state function of its file says; the results
below are about those functions and the runs they make up.

| class | methods |
|---|---|
| LeaderElection.LeaderElectionService, PaymentListener | TryAcquire, Renew, Release, IsLeaderAbsent; StartActivation and CompleteActivation (becomeActive before and after its await), RenewalTick, ProbeTick, Shutdown |
| Deposits.Database, BlockchainEventsWorker, ReconciliationWorker | FindPendingByAddress, HandlePartialDeposit, HandleTxDetected; Handle; Accumulate, ReconcilePayment, RunReconciliation |
| SerialChain.ApiChain | Execute (execute and schedule), StartBody, StartCall, AttemptEnded, BackoffEnded, Finally (the chained body between its awaits) |
| ResponseCache.Cache, GlobalSemaphore.GlobalSlots | Lookup, Remember; AcquireGlobalSlot, Decrement |
| CopilotTabs.CopilotStore | Send and OnSettled (sendMessage before and after its HTTP call), OnTakeover, CancelRequest, Clear |
| SlidingWindow.SlidingWindowRateLimiter, CircuitBreaker.CircuitBreakerService | Check; ReadState, ReportSuccess, ReportFailure |
| UserSlots.AiConcurrencyService, AiRequestGate | TryAcquire, Release, GetCount; HandleAiRequest, FinalizeRequest |
| BlockPolling.PollingListener, RefreshSessions.AuthRepository, AuthService | PollNewBlocks; CreateRefreshSession, FindSession, DeleteSession, DeleteAllRefreshSessions; RefreshTokens |
| TokenBudget.AiCostControlService, LeadBatch.LeadScoringService | AssertQuota, RecordUsage; BatchRecompute |

## Model

| member | source | states |
|---|---|---|
| `LeaderElection.AtMostOneLeader` | crm-backend/src/blockchain/blockchain.listener.ts:107-187 | Over every run in which no shutdown release cuts into an unfinished activation: an instance that takes in transfers within 30 s of the Redis time of its last successful acquire or renewal owns the key, so no two such instances exist at once; an instance whose state is active serves unless it is shutting down. |
| `LeaderElection.ReleaseIsSafeIffClean` | crm-backend/src/blockchain/blockchain.listener.ts:116-136 | A shutdown release is safe (no later run whose own releases are clean has two leaders) if and only if the releasing owner has no activation or unhandled grant in flight. |
| `LeaderElection.UncleanReleaseSplits` | crm-backend/src/blockchain/blockchain.listener.ts:116-136 | The failing half with its witness: after a release under an unfinished activation a newly booted instance leads beside the old one. |
| `LeaderElection.ShutdownDuringActivationSplits` | crm-backend/src/blockchain/blockchain.listener.ts:107-136 | A run from the start that gets there: boot, grant, shutdown during the activation, release, and a second instance. |
| `LeaderElection.ShutdownStopsServing` | crm-backend/src/blockchain/blockchain.listener.ts:116-126 | With no activation under way a shutdown ends ingestion before the release, makes that release clean, and after it the instance does not own the key. |
| `LeaderElection.ShutdownHandsOver` | crm-backend/src/blockchain/blockchain.listener.ts:116-126 | Over every run: such a shutdown of an active instance is followed by one leader at most, and the instance does not serve again unless it handles a grant it was waiting for. |
| `LeaderElection.LeaseLastsThirtySeconds` | crm-backend/src/core/leader/leader-election.service.ts:27-38 | After a grant or renewal the owner owns the key, and nobody else gets it, for exactly 30 seconds. |
| `LeaderElection.StaleLeaderSteppedDown` | crm-backend/src/core/leader/leader-election.service.ts:32-141 | In any world, with no timing assumption, a non-owner changes the key neither by renewing nor by releasing, and its next renewal ends its ingestion. |
| `LeaderElection.OwnershipNeedsAcquire` | crm-backend/src/core/leader/leader-election.service.ts:32-38 | Ownership once lost never returns without the instance's own SET NX, over any steps of anyone; every renewal until then fails. |
| `LeaderElection.StandbyTakesOver` | crm-backend/src/blockchain/blockchain.listener.ts:168-187 | Once the lease is gone one probe of any standby makes it the serving owner; while a lease is visible a probe changes nothing. |
| `LeaderElection.NextKeepsInv` | crm-backend/src/blockchain/blockchain.listener.ts:130-187 | Each single step of acquire, renew, release, probe, demotion, expiry and time keeps the link between an engaged instance's last grant and the key. |
| `LeaderElection.LeaderElectionService.TryAcquire` | crm-backend/src/core/leader/leader-election.service.ts:84-108 | SET NX EX 30: granted exactly when no unexpired key exists, and then the caller owns it. |
| `LeaderElection.LeaderElectionService.Renew` | crm-backend/src/core/leader/leader-election.service.ts:116-128 | True exactly for the owner, whose lease then lasts 30 s more; nobody else changes the key. |
| `LeaderElection.LeaderElectionService.Release` | crm-backend/src/core/leader/leader-election.service.ts:134-141 | Afterwards the caller does not own the key, and another owner's key is untouched. |
| `LeaderElection.LeaderElectionService.IsLeaderAbsent` | crm-backend/src/core/leader/leader-election.service.ts:147-150 | True exactly when no unexpired key exists. |
| `DepositProperties.CreditedAtMostOnce` | crm-backend/src/jobs/workers/blockchain-events.worker.ts:100-248 | Over every interleaving of redelivered, duplicated, reordered and crashed jobs with reconciliation, expiry, settlement and manual confirmation: each (txHash, logIndex) is credited at most once and only to the payment it was sent to; the received total is exactly the sum of the transfers credited and at most the sum of the distinct transfers to the address. |
| `DepositProperties.LiveReceivesWhatItRecords` | crm-backend/src/jobs/workers/blockchain-events.worker.ts:100-248 | In loss-free runs of the live worker a payment has received exactly the sum of its recorded transfers. |
| `DepositProperties.DeliveryLostIff` | crm-backend/src/jobs/workers/blockchain-events.worker.ts:160-207 | A first delivery to an open payment is recorded but never credited if and only if the job stopped after recording or the settling txHash is already taken by another payment; otherwise total and status are the documented ones. |
| `DepositProperties.LostForever` | crm-backend/src/jobs/workers/reconciliation.worker.ts:195-243 | A deposit lost that way stays lost: no later redelivery or reconciliation credits it. |
| `DepositProperties.CrashLosesADeposit` | crm-backend/src/jobs/workers/blockchain-events.worker.ts:160-207 | A run from the empty database in which a job stops after recording and the deposit is lost. |
| `DepositProperties.SharedTransactionLosesADeposit` | crm-backend/src/jobs/workers/blockchain-events.worker.ts:189-207 | A run without any crash: one transaction pays two payments in full and its second transfer is lost. |
| `DepositRaces.ReceivedIsTheChain` | crm-backend/src/jobs/workers/blockchain-events.worker.ts:100-248 | For any number of overlapping jobs and reconciliations of one payment, each in separate steps that check, load, record, check the status and store: the total is the initial amount plus what the last store, the store whose total that job loaded, and so on back, have added. |
| `DepositRaces.TotalIsWholeIff` | crm-backend/src/jobs/workers/blockchain-events.worker.ts:138-144 | The total is never more than everything stored, and is all of it if and only if no store with an amount was overwritten by a job that had loaded the payment before it. |
| `DepositRaces.NothingOverwrittenIffSerial` | crm-backend/src/jobs/workers/blockchain-events.worker.ts:115-207 | If every transfer is worth something, that is: no job stores between another one's load and store. |
| `DepositRaces.TwoStores` | crm-backend/src/jobs/workers/blockchain-events.worker.ts:115-207 | Two stores, of two transfers or of one: both count if and only if the second job loaded after the first stored, otherwise the second alone. |
| `DepositRaces.RedeliveriesCredited` | crm-backend/src/jobs/workers/blockchain-events.worker.ts:103-207 | One transfer delivered any number of times, by jobs that all found it unrecorded, is credited once for every store on the chain; of two, twice exactly if the second loaded after the first stored. |
| `DepositRaces.OverwrittenForever` | crm-backend/src/jobs/workers/blockchain-events.worker.ts:108-113 | A recorded deposit that is not in the total, with no job under way to bring it back, stays out in every later run. |
| `DepositRaces.OverlapLosesADeposit` | crm-backend/src/jobs/workers/blockchain-events.worker.ts:115-247 | A run in which two deposits of 300 and 400 overlap, both are recorded and 300 are gone. |
| `DepositRaces.OverlapCreditsTwice` | crm-backend/src/jobs/workers/blockchain-events.worker.ts:103-247 | A run in which one deposit of 300 gives 600. |
| `DepositRaces.StaleReconciliationLosesADeposit` | crm-backend/src/jobs/workers/reconciliation.worker.ts:121-243 | A run in which a reconciliation settles with the total fetched at its start and drops a deposit stored since. |
| `DepositRaces.StatusSurvivesIff` | crm-backend/src/modules/payments/payments.service.ts:124-155 | What a store does to a payment that closed after the status check: exactly when its status survives, and that a short total sets it back to PARTIAL. |
| `DepositRaces.SettledPaymentReopens` | crm-backend/src/modules/payments/payments.service.ts:124-155 | A run in which a CONFIRMING payment with 1000 goes back to PARTIAL with 300. |
| `DepositRaces.ShutPaymentTurnsJobsAway` | crm-backend/src/modules/payments/payments.service.ts:124-129 | An expired or closed payment is neither loaded nor fetched, and a job that finds it closed at its status check stores nothing. |
| `DepositRaces.UndisturbedJobIsADelivery` | crm-backend/src/jobs/workers/blockchain-events.worker.ts:89-248 | The steps of a job without anything in between do exactly what one delivery of the other files does. |
| `DepositRaces.UndisturbedScanIsAReconciliation` | crm-backend/src/jobs/workers/reconciliation.worker.ts:174-268 | And those of a reconciliation what one reconciliation does. |
| `DepositProperties.SharedAddressCreditsTwiceIff` | crm-backend/src/jobs/workers/reconciliation.worker.ts:201-243 | If two payments share an address, any scan for the second that finds a transfer credited to the first credits it again exactly when the transfers not linked to the second meet its threshold and the last txHash is free. |
| `DepositProperties.SharedAddressCreditsTwice` | crm-backend/src/jobs/workers/reconciliation.worker.ts:201-243 | A run from the empty database in which that happens. |
| `DepositProperties.CreditingKeepsInv` | crm-backend/src/modules/payments/payments.service.ts:168-208 | Adding a batch of uncredited transfers to an open payment keeps totals, links and uniqueness of credits. |
| `DepositProperties.DeliverKeepsInv` | crm-backend/src/jobs/workers/blockchain-events.worker.ts:100-248 | One delivery, crashed or not, keeps them. |
| `DepositProperties.ReconKeepsInv` | crm-backend/src/jobs/workers/reconciliation.worker.ts:195-243 | One reconciliation of an open payment keeps them. |
| `DepositProperties.TransferToShutPaymentIsDiscarded` | crm-backend/src/modules/payments/payments.repository.ts:59-68 | If every payment with the address has expired or is neither PENDING nor PARTIAL, a transfer leaves the database as it was. |
| `DepositProperties.TransferToOpenPaymentIsRecorded` | crm-backend/src/jobs/workers/blockchain-events.worker.ts:115-179 | If one of them is open, it is recorded. |
| `DepositProperties.ReconciliationSkipsShutPayments` | crm-backend/src/modules/payments/payments.repository.ts:79-85 | A reconciliation of an expired or closed payment changes nothing. |
| `DepositProperties.CreditsGoToOpenPayments` | crm-backend/src/modules/payments/payments.repository.ts:59-85 | Over every run each credit goes to a payment unexpired and PENDING or PARTIAL at that moment. |
| `DepositProperties.ClosedPaymentIgnoresDeposits` | crm-backend/src/modules/payments/payments.service.ts:124-129 | Both payment updates ignore a payment that is neither PENDING nor PARTIAL. |
| `DepositProperties.ReconciliationReport` | crm-backend/src/jobs/workers/reconciliation.worker.ts:219-267 | Whatever became of the payment since its row was fetched: recovered or failed exactly if the unlinked transfers meet the threshold, failed exactly if it also still accepts deposits and the txHash is taken. |
| `DepositProperties.StatusesOnlyAdvance` | crm-backend/src/modules/payments/payment-state-machine.ts:37-75 | Over every run without overlapping jobs a payment only advances: one that settled never accepts deposits again, FAILED, EXPIRED and REFUNDED stay. |
| `DepositProperties.TransactionsSettleOnce` | crm-backend/prisma/schema.prisma:1032 | Over every run no two payments are settled by one transaction. |
| `DepositProperties.ManualConfirmation` | crm-backend/src/modules/payments/payments.service.ts:462-542 | Manual confirmation completes a PENDING payment under a txHash no payment has, and changes nothing else. |
| `DepositAgreement.LiveAndReconciliationAgree` | crm-backend/src/jobs/workers/reconciliation.worker.ts:195-268 | Delivering a nonempty set of unrecorded transfers one by one in any order ends in CONFIRMING exactly when one reconciliation pass over the same set in any other order does, namely when stored plus sum is at least expected minus 1. |
| `DepositAgreement.AgreementIff` | crm-backend/src/jobs/workers/reconciliation.worker.ts:195-268 | Without assuming free txHashes: the two reach the same verdict in every pair of orders if and only if the threshold is not met, no transfer has a taken txHash, or all have. |
| `DepositAgreement.AgreementCanFail` | crm-backend/src/jobs/workers/reconciliation.worker.ts:236-243 | Two payments and two transfers, one of them from the transaction that settled the other payment, for which the verdict depends on the order. |
| `DepositAgreement.LiveOutcome` | crm-backend/src/jobs/workers/blockchain-events.worker.ts:133-248 | After delivering them all: CONFIRMING with a total that met the threshold, or PARTIAL with the full total. |
| `DepositAgreement.LiveNeverSettlesIfAllTaken` | crm-backend/src/jobs/workers/blockchain-events.worker.ts:189-207 | If every txHash is taken, live delivery never settles the payment. |
| `DepositAgreement.ScanOutcome` | crm-backend/src/jobs/workers/reconciliation.worker.ts:205-268 | After one pass over unrecorded transfers: settled with the full total if they meet the threshold and the last txHash is free, an error if it is taken, and otherwise nothing. |
| `DepositAgreement.RecoveredCountsSettled` | crm-backend/src/jobs/workers/reconciliation.worker.ts:121-162 | A run reports as recovered exactly the open payments it moved to CONFIRMING, as errors all others whose scan failed or whose transfers met the threshold, changes no other payment, and leaves one whose scan failed as it was. |
| `Deposits.FindOpen` | crm-backend/src/modules/payments/payments.repository.ts:59-68 | The payment found has the address and is open; none is found only if there is none (what open means: TransferToShutPaymentIsDiscarded and TransferToOpenPaymentIsRecorded). |
| `Deposits.Database.FindPendingByAddress` | crm-backend/src/modules/payments/payments.repository.ts:59-68 | The loop returns that payment. |
| `Deposits.BlockchainEventsWorker.Handle` | crm-backend/src/jobs/workers/blockchain-events.worker.ts:89-248 | One transfer job refines the delivery function the run theorems are about. |
| `Deposits.ReconciliationWorker.Accumulate` | crm-backend/src/jobs/workers/reconciliation.worker.ts:205-217 | The scan loop computes stored plus the sum of the logs not linked to this payment, and the last of them. |
| `Deposits.ReconciliationWorker.ReconcilePayment` | crm-backend/src/jobs/workers/reconciliation.worker.ts:174-268 | One reconciliation, with the row fetched at the start of the run and the keys recorded by now, refines the reconciliation function. |
| `Deposits.ReconciliationWorker.RunReconciliation` | crm-backend/src/jobs/workers/reconciliation.worker.ts:121-162 | One run refines it over the payments whose rows were fetched together, one payment's failure not stopping the rest. |
| `SerialChainProperties.CallsRunOneAtATimeInOrder` | crm-backend/src/modules/ai/ai-executor.service.ts:192-242 | Over every run: once a call has left the queue every earlier one is finished, so at most one fn runs at a time and calls start in arrival order; a call after a success, or after an abort on waking from a back-off, makes its first attempt at least 300 ms later. |
| `SerialChainProperties.QueueAlwaysDrains` | crm-backend/src/modules/ai/ai-executor.service.ts:228-241 | From every reachable state, whatever is answered to each question the front calls ask in turn (signal, slot, result of fn), the queue empties: no failed, refused or skipped call blocks the chain. |
| `SerialChainProperties.DepthAndKeysAreExact` | crm-backend/src/modules/ai/ai-executor.service.ts:173-241 | queueDepth is the number of accepted calls not yet cleaned up and at most 10; inFlight maps exactly their keys, one call each. |
| `SerialChainProperties.ArrivalReply` | crm-backend/src/modules/ai/throttled-api-queue.service.ts:174-200 | An arriving call joins the one live call with its key, is refused exactly when ten others are live, and is accepted otherwise; only acceptance changes anything. |
| `SerialChainProperties.OutcomeIsFinal` | crm-backend/src/modules/ai/ai-executor.service.ts:174-178 | A promise settles once, so every deduplicated caller gets the owner's outcome. |
| `SerialChainProperties.AttemptsAreBounded` | crm-backend/src/modules/ai/throttled-api-queue.service.ts:258-278 | Every outcome is the first that is no rate limit, the last rate limit once the delays are used up, or an abort or refusal; at most 3 attempts in the executor, at least 1 and 2 s apart, and 4 in the queue, at least 1, 2 and 4 s apart; a retry comes only after a rate limit. |
| `SerialChainProperties.UndisturbedCallsAreAnswered` | crm-backend/src/modules/ai/ai-executor.service.ts:192-226 | Only a raised signal aborts and only a refused slot turns away: in runs without either, every settled call has made an attempt and has the outcome of the last one. |
| `SerialChainProperties.QueuedAbortIsSkipped` | crm-backend/src/modules/ai/throttled-api-queue.service.ts:202-209 | A call whose signal is up when its turn comes is settled at once as aborted; over every later run no attempt is made for it, and the call behind it can start. |
| `SerialChainProperties.NoAttemptUnderRaisedSignal` | crm-backend/src/modules/ai/ai-executor.service.ts:351-359 | Over every run in which a call's signal is up whenever it is tested, no further attempt is made for it: in the queue from before its start, in the executor from any point between attempts. |
| `SerialChainProperties.RaisedSignalStartsNothing` | crm-backend/src/modules/ai/ai-executor.service.ts:198-226 | In the executor an attempt due under a raised signal is not made, and the slot goes back. |
| `SerialChainProperties.ServicesDiffer` | crm-backend/src/modules/ai/throttled-api-queue.service.ts:174-186 | An aborted arrival is turned away by the executor and joined by the queue; a started call ignores the signal and needs no slot in the queue only. |
| `SerialChainProperties.SlotsAreReturned` | crm-backend/src/modules/ai/ai-executor.service.ts:198-226 | Slots taken minus slots returned is the number of calls now between the two, at most one per process. |
| `SerialGap.LastCallAtIsExact` | crm-backend/src/modules/ai/ai-executor.service.ts:303-310 | Over every run lastCallAt is exactly what the calls recorded: the end of the latest success, start of a retry, or abort on waking; every first attempt comes at least 300 ms later. |
| `SerialGap.GapAfterLastCallIff` | crm-backend/src/modules/ai/ai-executor.service.ts:216-226 | A call is kept 300 ms from the end of the last call that was made if and only if that one succeeded, was aborted on waking from a back-off, or failed in a retry that took no time, or the time has passed anyway; otherwise lastCallAt lies before that end. |
| `SerialGap.NoGapAfterFirstFailure` | crm-backend/src/modules/ai/ai-executor.service.ts:216-226 | After a call that fails at its first attempt the next one goes out at once. |
| `SerialGap.FailureLosesTheGap` | crm-backend/src/modules/ai/throttled-api-queue.service.ts:202-243 | A run of the queue in which that happens at 1000 ms. |
| `SerialChainProperties.NextKeepsInv` | crm-backend/src/modules/ai/ai-executor.service.ts:163-242 | Every single step keeps order, keys, clock, attempts and slots. |
| `SerialChain.WithRetry` | crm-backend/src/modules/ai/ai-executor.service.ts:351-376 | The retry loop: attempts and outcome explained as above, aborted exactly when the signal was up before an attempt that would otherwise be made, total sleep the sum of the delays used, the trailing throw never reached. |
| `ResponseCache.CacheIsBoundedAndCurrent` | crm-backend/src/modules/ai/throttled-api-queue.service.ts:109-123 | After any stores a cache holds each key once and at most its capacity, and a hit is the value stored last. |
| `ResponseCache.DistinctStoresKeepTheNewest` | crm-backend/src/modules/ai/throttled-api-queue.service.ts:64-70 | If no key is stored twice the cache is exactly the newest entries, oldest first. |
| `ResponseCache.StoreShrinksIff` | crm-backend/src/modules/ai/throttled-api-queue.service.ts:118-122 | A store shrinks a full cache exactly when its key is present and not the oldest. |
| `ResponseCache.RepeatedStoreShrinks` | crm-backend/src/modules/ai/throttled-api-queue.service.ts:118-122 | For every capacity above one, a history of stores after which storing the newest key again loses the oldest. |
| `ResponseCache.QueueCaches` | crm-backend/src/modules/ai/throttled-api-queue.service.ts:92-94 | The same for the two caches of 500 and 200. |
| `ResponseCache.Cache.Lookup` | crm-backend/src/modules/ai/throttled-api-queue.service.ts:112-116 | A hit is the value under the key. |
| `ResponseCache.Cache.Remember` | crm-backend/src/modules/ai/throttled-api-queue.service.ts:120-121 | Evict the oldest if full, then set in place or at the end. |
| `GlobalSemaphore.CounterIsExact` | crm-backend/src/modules/ai/ai-executor.service.ts:87-97 | While no busy period outlasts 300 s: the counter is the number of slots held over all replicas, between 0 and 3, a call is refused exactly at 3 and refusal leaves the count, and the negative-value repair never runs. |
| `GlobalSemaphore.CountSurvivesTimeIff` | crm-backend/src/modules/ai/ai-executor.service.ts:93-95 | The passing of time breaks the count if and only if it takes a busy period past the TTL. |
| `GlobalSemaphore.OverlongBusyPeriodOverfills` | crm-backend/src/modules/ai/ai-executor.service.ts:93-95 | After that three more calls get slots on top of those held. |
| `GlobalSemaphore.ShortCallsCanOverfill` | crm-backend/src/modules/ai/ai-executor.service.ts:93-95 | Calls of about 150 s each suffice for four to hold slots at once. |
| `Replicas.EverySlotIsSomeCalls` | crm-backend/src/modules/ai/ai-executor.service.ts:198-226 | Over every run of any number of replicas that may die and restart, with no timing assumption: the slots granted and not returned are exactly those of the calls inside, at most one per process, and of processes that died inside; none of the latter if nobody dies. |
| `Replicas.CounterCountsCalls` | crm-backend/src/modules/ai/ai-executor.service.ts:83-97 | While no key expires under a call: the counter is the calls inside over all replicas plus the slots of dead processes, so the calls inside never exceed it, it never exceeds 3, and the next to ask is refused exactly at 3. |
| `Replicas.DeadSlotsComeBack` | crm-backend/src/modules/ai/ai-executor.service.ts:83-97 | Once the TTL is over with nobody inside the count is zero, the next to ask is granted, and the run goes on in time. |
| `GlobalSemaphore.GlobalSlots.AcquireGlobalSlot` | crm-backend/src/modules/ai/ai-executor.service.ts:314-335 | Granted exactly below the limit; a refusal leaves the count. |
| `CopilotTabs.ParallelOnlyWhileUndelivered` | crm-frontend/src/store/copilot.store.ts:69-84 | For any number of tabs and delivery order: two tabs are in flight at once only while the later sender's TAKEOVER to the earlier is undelivered; with none undelivered at most one request is in flight, the latest sent. |
| `CopilotTabs.LatestSurvivesIff` | crm-frontend/src/store/copilot.store.ts:109-134 | The latest request survives delivery of all mail if and only if no older TAKEOVER was on its way to its tab when it was sent; otherwise none is in flight. |
| `CopilotTabs.CrossingSendsLoseBoth` | crm-frontend/src/store/copilot.store.ts:69-84 | A run of two tabs after which no request is left. |
| `CopilotTabs.MailCanBeDelivered` | crm-frontend/src/store/copilot.store.ts:69-84 | From every reachable state deliveries alone empty the mail. |
| `CopilotTabs.TabsStayConsistent` | crm-frontend/src/store/copilot.store.ts:109-247 | Between events of any run isLoading, a live controller and a non-null active id are equivalent in every tab, every other call still out has been aborted, and each reply stands right after its own question or a cleared chat. |
| `CopilotTabs.SettlingFreesTheSlot` | crm-frontend/src/store/copilot.store.ts:170-247 | However the current call can end, it shows its reply and leaves the tab ready. |
| `CopilotTabs.AtMostOneReply` | crm-frontend/src/store/copilot.store.ts:146-239 | Over any run at most one reply is appended per send. |
| `CopilotTabs.NoReplyOnceSuperseded` | crm-frontend/src/store/copilot.store.ts:170-201 | And none once the send has lost its slot, however late the response. |
| `CopilotTabs.ReplyIffCurrent` | crm-frontend/src/store/copilot.store.ts:170-239 | A call that ends appends its reply if and only if it is the current one of its tab and was not cancelled. |
| `CopilotTabs.ReplyTakesTheSlot` | crm-frontend/src/store/copilot.store.ts:191-246 | A reply is appended only to the request in the slot, and frees it. |
| `CopilotTabs.NextKeepsInv` | crm-frontend/src/store/copilot.store.ts:58-107 | Every event keeps the slot, transcript and takeover invariants. |
| `CopilotTabs.ClearCommutesWithReplies` | crm-frontend/src/store/copilot.store.ts:94-95 | Clearing the chat does not touch the call in the slot: whatever its end adds to the old chat it adds to the fresh one. |
| `CopilotTabs.StepAppends` | crm-frontend/src/store/copilot.store.ts:144-239 | Every event but a clear keeps the chat of every tab and appends what it shows there. |
| `CopilotTabs.ChatIsTheHistory` | crm-frontend/src/store/copilot.store.ts:144-239 | Over every run without a clear a chat is what it was, then every question asked in its tab and every reply to the request current there, in order. |
| `CopilotTabs.NewTabShowsItsHistory` | crm-frontend/src/store/copilot.store.ts:86-90 | So a tab opened at any point of any run shows the greeting and its whole history. |
| `CopilotTabs.CancelAborts` | crm-frontend/src/store/copilot.store.ts:97-111 | A cancel aborts the call in the slot and keeps the chat; a blank question does nothing. |
| `SlidingWindow.AdmittedIffRoom` | crm-backend/src/common/rate-limit/sliding-window.service.ts:27-92 | After any checks the next is admitted exactly when fewer than its limit were admitted in the window ending now, counted over the full history, although entries were trimmed and the key may have expired; it reports what is left. |
| `SlidingWindow.EveryWindowWithinLimit` | crm-backend/src/common/rate-limit/sliding-window.service.ts:27-92 | No window of the given length, wherever it ends, holds more admissions than the largest limit used. |
| `SlidingWindow.AdmissionCountedIff` | crm-backend/src/common/rate-limit/sliding-window.service.ts:42-45 | An admitted request is counted from then on if and only if its suffix was not drawn before in the same millisecond. |
| `SlidingWindow.NextTracks` | crm-backend/src/common/rate-limit/sliding-window.service.ts:36-50 | One check keeps the stored set and the history in agreement on the window. |
| `CircuitBreaker.OpenCircuitFailsFast` | crm-backend/src/core/resilience/circuit-breaker.service.ts:107-130 | From an open circuit no caller is admitted until openDurationMs has passed, whatever others report, unless a half-open call succeeds in between. |
| `CircuitBreaker.OpensIffThresholdReached` | crm-backend/src/core/resilience/circuit-breaker.service.ts:141-169 | After any run a failure opens the circuit exactly when the failures of the last window since the last reset, counted over the full history, reach the threshold; otherwise the state is left as it was. |
| `CircuitBreaker.BurstOpens` | crm-backend/src/core/resilience/circuit-breaker.service.ts:141-169 | From the start, for every configuration: a burst as large as the threshold opens the circuit, a smaller one does not. |
| `CircuitBreaker.HowManyFailuresOpen` | crm-backend/src/core/resilience/circuit-breaker.service.ts:40-66 | Three failures open llm and polygon, five openai, sendgrid and twilio. |
| `CircuitBreaker.HalfOpenSuccessCloses` | crm-backend/src/core/resilience/circuit-breaker.service.ts:132-139 | A half-open success closes the circuit and clears the failures, even if it had reopened; a success of a call admitted while closed changes nothing. |
| `CircuitBreaker.OpenCircuitOverTime` | crm-backend/src/core/resilience/circuit-breaker.service.ts:112-164 | What a caller is told at each moment after an opening failure with nothing else happening: OPEN for openDurationMs, HALF_OPEN until the record expires, then CLOSED without a probe. |
| `CircuitBreaker.UnansweredProbeOverTime` | crm-backend/src/core/resilience/circuit-breaker.service.ts:116-129 | A probe that never reports leaves the circuit HALF_OPEN for two open periods, then CLOSED. |
| `CircuitBreaker.EntersWhileHalfOpen` | crm-backend/src/core/resilience/circuit-breaker.service.ts:116-129 | Any number of callers pass while half-open. |
| `CircuitBreaker.ProbeFailureReopensIff` | crm-backend/src/core/resilience/circuit-breaker.service.ts:141-169 | A failing probe reopens the circuit if and only if the failures still inside the window are at most one short of the threshold; otherwise it stays half-open. |
| `CircuitBreaker.ProbeAfterBurst` | crm-backend/src/core/resilience/circuit-breaker.service.ts:112-169 | From the start, for every configuration: after a burst of failures, a failing probe reopens the circuit exactly while the burst is inside the window. |
| `CircuitBreaker.WhichProbesReopen` | crm-backend/src/core/resilience/circuit-breaker.service.ts:40-66 | So never for polygon, before the minute is over for llm and openai, always for sendgrid and twilio. |
| `UserSlots.InFlightWithinLimit` | crm-backend/src/common/rate-limit/ai-concurrency.service.ts:6-68 | If requests end within the TTL of their own grant: requests in flight ≤ stored count ≤ largest allowance in every run, even when slots leak. |
| `UserSlots.CountIsExactWithoutLeaks` | crm-backend/src/common/interceptors/ai-concurrency.interceptor.ts:15-28 | If no request dies without releasing, the stored count is exactly the number of requests in flight. |
| `UserSlots.RefusedIffFull` | crm-backend/src/common/rate-limit/ai-concurrency.service.ts:10-16 | A request is refused exactly when the stored count has reached its allowance, and then the count is as before. |
| `UserSlots.OverdueRequestsAreForgottenIff` | crm-backend/src/common/rate-limit/ai-concurrency.service.ts:15 | Time makes the count too low if and only if the last grant's TTL ends with requests under way; one more is then admitted beyond the limit. |
| `UserSlots.LeakedSlotsComeBack` | crm-backend/src/common/rate-limit/ai-concurrency.service.ts:6-28 | Over any run in which nobody is granted a slot for longer than the safety TTL, with any leaks and refusals, the count ends at zero and the next request is granted. |
| `UserSlots.WhoIsLimited` | crm-backend/src/common/guards/tenant-throttler.guard.ts:55-78 | Limited are exactly identifiable non-administrators of a tenant, by their id or else sub, to 1, 2, 3 or 5 slots by their tier, or to 3, 2 or 1 by role without one. |
| `UserSlots.AiRequestGate.HandleAiRequest` | crm-backend/src/common/guards/tenant-throttler.guard.ts:132-188 | A limited request is marked exactly when a slot was granted and refused otherwise; others pass without touching the counter. |
| `BlockPolling.SessionCovers` | crm-backend/src/blockchain/blockchain.listener.ts:336-391 | Over any polls the requests are at most 500 blocks long, contiguous, and cover exactly the blocks after the baseline up to the cursor, which is the highest head seen. |
| `BlockPolling.EachBlockAskedOnce` | crm-backend/src/blockchain/blockchain.listener.ts:347-348 | So each of these blocks lies in exactly one request and no other block in any. |
| `BlockPolling.EnqueuedOnce` | crm-backend/src/blockchain/blockchain.listener.ts:350-382 | Enqueued are the parsable logs of exactly the ranges whose query succeeded, each once and in order; that is every parsable log after the baseline if and only if no failed query covered one. |
| `BlockPolling.EnqueuedAreTheParsableLogs` | crm-backend/src/blockchain/blockchain.listener.ts:365-380 | After any polls every parsable log was enqueued exactly as often as the blocks of the answered ranges hold it, and no unparsable one ever. |
| `BlockPolling.EnqueuedInOrder` | crm-backend/src/blockchain/blockchain.listener.ts:365-380 | In their order: they are the logs at the places of the parsable ones among all logs of the answered ranges. |
| `BlockPolling.FailedQueryLosesALog` | crm-backend/src/blockchain/blockchain.listener.ts:353-363 | A session of two polls that loses the log of block 1. |
| `BlockPolling.PollCovers` | crm-backend/src/blockchain/blockchain.listener.ts:336-348 | One poll moves the cursor to the head block if that is further on, with one request per started 500 blocks, and keeps the cover. |
| `BlockPolling.PollingListener.PollNewBlocks` | crm-backend/src/blockchain/blockchain.listener.ts:336-391 | The chunk loop refines the poll function; the cursor never goes back. |
| `BlockPolling.PollingListener.EnqueueParsable` | crm-backend/src/blockchain/blockchain.listener.ts:365-380 | The inner loop enqueues the parsable logs in order. |
| `BlockPolling.WithRetry` | crm-backend/src/blockchain/blockchain.listener.ts:397-422 | At most three invocations, another only after a retryable error; the result is the last one's, and the total sleep is exact. |
| `RefreshSessions.EverySessionAccountedFor` | crm-backend/src/modules/auth/auth.repository.ts:43-84 | Under any interleaving of lookups and deletes, issued = live + consumed + revoked for each token hash, live at most 1, and successful refreshes never exceed issues. |
| `RefreshSessions.ReplayRevokesAll` | crm-backend/src/modules/auth/auth.service.ts:167-178 | A replayed token costs the user every session live at that step, and nobody else any. |
| `RefreshSessions.ReuseDetectedIff` | crm-backend/src/modules/auth/auth.repository.ts:61-71 | In any interleaving without reissue of the hash, a request for the session's owner comes to revoke all of the user's sessions if and only if the session was consumed or revoked before its lookup. |
| `RefreshSessions.OverlappingUsesGoUnnoticed` | crm-backend/src/modules/auth/auth.repository.ts:61-71 | Two uses that both looked the session up while it was live: over every later run neither raises the alarm or costs the user another session, and without reissue at most one gets new tokens. |
| `RefreshSessions.OverlappingUsesHappen` | crm-backend/src/modules/auth/auth.repository.ts:61-71 | A run from the empty table: a login and two overlapping refreshes, one succeeding and one failing, nothing revoked. |
| `RefreshSessions.UndisturbedRefresh` | crm-backend/src/modules/auth/auth.service.ts:167-187 | The steps of a refresh with nothing in between leave the sessions, and succeed, exactly as the whole refresh. |
| `RefreshSessions.LogoutEndsSessions` | crm-backend/src/modules/auth/auth.service.ts:193-200 | A logout ends the one session, or all of the user's, and nobody else's; the token then only raises the alarm. |
| `RefreshSessions.AuthService.RefreshTokens` | crm-backend/src/modules/auth/auth.service.ts:167-187 | Uninterrupted: rotation, reuse and owner mismatch, with the exact sessions left. |
| `TokenBudget.UsageIsBounded` | crm-backend/src/modules/ai/cost-control.service.ts:53-105 | With at most k requests between check and record, estimates at least e and records at most m, usage is at most limit - e + k*m or nothing was used, across month ends too. |
| `TokenBudget.BoundIsReached` | crm-backend/src/modules/ai/cost-control.service.ts:53-105 | For k and M at least 1 a run from an unused month within k, e and M reaches that bound exactly. |
| `TokenBudget.Budgets` | crm-backend/src/modules/ai/cost-control.service.ts:30-35 | A new month forgets all usage, and its first request passes exactly up to 10 000, 100 000 or 500 000 tokens, or always. |
| `TokenBudget.PendingIsExact` | crm-backend/src/modules/ai/cost-control.service.ts:53-105 | The requests counted as pending are those that passed the check and have neither recorded nor failed. |
| `LeadBatch.LeadScoringService.BatchRecompute` | crm-backend/src/modules/analytics/lead-scoring.service.ts:77-108 | Terminates; scores every lead exactly once in id order with ceil(n/50) + 1 page queries. |
| `LeadBatch.NextPage` | crm-backend/src/modules/analytics/lead-scoring.service.ts:83-92 | The query after any number of leads returns exactly the next up to 50. |

## Left out

- `LISTENER_MODE` overrides, which bypass the election.
- Switching between the WebSocket subscription and HTTP polling, a poll already under way at step-down, and missed WebSocket events; a listener is ingesting or not.
- DepositProperties.CreditedAtMostOnce: assumes distinct deposit addresses and jobs that do not overlap, because without them it is false; DepositRaces and SharedAddressCreditsTwiceIff say what holds instead.
- DepositRaces.ReceivedIsTheChain: follows one payment; how many payments' txHashes are taken is a step of its environment, and its address is not shared.
- Which worker is wired to the transfer queue (crm-backend/src/jobs/jobs.module.ts:87-90 replaces BlockchainEventsWorker); its algorithm is modelled as the counterpart that reconciliation relies on.
- The scan window's size and the chain lookups around it; a scan is any set of transfers to the address, or a failure.
- Decimal rounding beyond six places, amounts of manual confirmation, ledger entries, payment events, expiry sweeps as code (expiry is a step).
- SerialChain.ApiChain.AttemptEnded: the await between the last attempt and the settled promise, during which the slot is returned, is one step with it; so is the await between taking the slot and the first attempt.
- normalizeError, which only rewords errors, and the per-user lock `acquireUserSlot`.
- An empty string in the LLM cache counts as a miss in the code; values in ResponseCache are never empty.
- CircuitBreaker.CircuitBreakerService.ReadState: the read of the record and the write of HALF_OPEN are one step, as are the pipeline and the write of OPEN, so races inside a step are not modelled.
- GlobalSemaphore.GlobalSlots.Decrement: the SET 0 after a negative value is a step of its own in the transition system, not part of this method.
- Limiters failing open when Redis fails, response headers, and the fixed-window throttling of other paths.
- A tier outside the four known ones, which the code treats as free.
- Wording of the copilot's error messages, sources and sessions; browsers without BroadcastChannel.
- Enqueue failures in polling and retries by the queue; expiry and signatures of refresh tokens.
- TokenBudget.AiCostControlService.RecordUsage: the key's expiry at the month's end is a step of the transition system that zeroes the counter.
- Lead scores themselves, and a lead table that changes during the batch.
- Payment providers, webhooks, mail, controllers, pages, role permissions and metrics: foreign calls or plumbing.
