# Payment system: verified model

A payment system moves money through several protocols that keep state and that meet
concurrent callers, failures and restarts. This project models those protocols in Dafny
and proves what they guarantee, and, where the code falls short of what it intends,
exactly when it does so. Money is an unbounded integer; every amount the payment flow
writes is shown to lie between 0 and the balance the wallet started with.

| area | files | what is in them |
|---|---|---|
| payment flow | `wallet_repository`, `payment_machine`, `payment_verdicts`, `payment_service`, `payment_ledger`, `validated_payments`, `fault_free_payments`, `payment_transactions` | the tables and repository calls; one payment as a machine with a step for each call; what a payment alone comes to, by the answers it gets; the two services as methods proved against both; the ledger over any interleaving of payments; why each payment got where it is; who turned a payment away; the transaction rows |
| saga | `saga`, `saga_orchestrator`, `saga_theorems`, `saga_rows`, `saga_writes`, `saga_recovery` | a run as its final record and its effects in order; the orchestrator and the saga table as objects; outcome, calls, crash points and cost; what is stored at the end, and when the payment saga completes; the order of writes and calls; recovery from every crash point |
| event store | `event_log`, `event_store`, `wallet_events`, `wallet_clients`, `wallet_commands`, `snapshot_clients`, `snapshot_chains`, `aggregate_repository` | the log as a value and its invariant; the store as an object whose events are shared and stamped in place; wallet commands, replay and snapshots; interleaved clients, without snapshots and with, what becomes of each command, and when the log stays a chain; the aggregate and its repository as objects |
| read models | `projection`, `projection_theorems`, `rows_by_event_type`, `projection_stops`, `read_models` | the rows an event writes; resuming, and rows against the log; the rows by the names of the event types; what stops and restarts leave at the end; the projector as an object |
| in-memory wallet | `concurrent_wallet`, `concurrent_wallet_theorems`, `concurrent_wallet_service` | locked and optimistic calls as one machine; linearizability and conflicts; the service and its balances as objects |
| gateway breaker | `circuit_breaker`, `gateway_service` | the breaker over any calls and over sequential requests; the objects |
| queries, routing | `query_builder`, `partition_router`, `partitioned_processor` | filter to parametrised query; wrapping hash and per-user queues |

The pattern is the same throughout. An object whose methods update it is a class, and each
method is proved to take the object's value where a function on values says. The main
results are lemmas about those functions, over every run. Calls that the code makes outside
itself (database replies, executor answers, the gateway, the clock) are inputs.

## Where the code departs from its intent

The code is modelled as it is. Each of these is stated as an exact condition, and most are
also shown on a run.

- A declined payment's refund is attempted once and its result is discarded
  (internal/services/payment/service.go:227). The refund commits if and only if no other
  update of the wallet was committed since its read (`RefundCommitsIff`);
  `DeclinedAndNotRefunded` is a run that ends with the money gone. Without database errors a
  refund is lost, or a validated payment refused, only when another payment updated the wallet
  in between (`LosersHaveRivals`).
- A transaction row is inserted before the update it stands for, so a lost update leaves a row
  behind (`RowsExplainTheWallet`, `LostUpdatesLeaveOrphans`).
- A saga is marked compensated even if a compensation failed, the stored `current_step` is
  never advanced, and a saga that was only started has no recovery case.
  `CrashState` says which crash leaves which row. From a row in progress, `RecoverySettles`
  gives the cost of every recovery, `RecoveredSettlesRightIff` the exact condition for a right
  one, and `RecoveryLosesTheAmount` a recovery that loses the amount although no compensation
  was called; `RecoveredFailureIsNotCompensated` and `StartedIsNeverResumed` cover the other
  rows, and `RepeatedRecoverySettles` gives the cost of any number of crashes. Resuming from
  the stored statuses instead would repeat at most one success (`FrontierRepeatsAtMostOne`).
  The design text promises idempotent compensation that handles partial failure; the
  code keeps no such record.
- A command advances an aggregate's version twice, and a snapshot records that version
  (`OneCommandALoad`, `ReuseLosesUpdates`, `LoadThroughSnapshot`). With snapshots on, clients
  that load before each command lose an update if and only if an accepted save goes back to a
  load that found a snapshot recorded at the log's version or beyond (`ChainedIff`), which a
  caller can check before it loads (`CarefulClientsLoseNothing`). Such a load does occur
  (`RaceBreaksTheChain`, `RaceIsReached`), and a wallet used by one client stops at its first
  snapshot for ever (`SnapshotBlocksForever`, `OneClientIsCapped`).
- The memory store reads the lower sequence bound as exclusive, the Postgres store as
  inclusive; the projector is exact only with the second (`ExclusiveSkipsOne`,
  `ExclusiveSessionsLose`, `StoresDifferAtTheBound`). The two stores also cut pages differently (`PagesAgreeIff`).
- The design text promises that processed events are recorded and skipped. The projector
  keeps only a checkpoint, written after the rows (`StopInsideAnEvent`,
  `StopAfterTheBalanceRow`, `StopAfterBothRows`); `StoppedEventCountsTwice` and
  `StoppedMovementOverCounts` give the rows at the end of the resumed pass.
- Wallet rows are keyed by user and currency joined with a colon, which user ids may contain
  (`WalletPartsMeet`, `ColonUsersClash`).
- A user id whose 64-bit hash wraps to a negative number may have no partition
  (`RoutingRange`, `ThirteenCanMiss`).
- A payment that the gateway rejects counts as a success to the breaker (`RejectionsNeverTrip`).

## Model

| member | source | states |
|---|---|---|
| PaymentLedger.Ledger | internal/services/payment/service.go:182-261 | in every interleaving of any number of payments, with any database errors, each wallet's balance is between 0 and its start, what is missing is exactly what is debited and not refunded, and its version counts the committed updates |
| PaymentLedger.FinalAccounts | internal/services/payment/service.go:182-261 | when every payment has ended, a wallet is short of exactly the completed payments and the failed ones whose refund did not commit |
| PaymentLedger.StoredStatusIsHonest | internal/services/payment/service.go:213-261 | a stored status of completed means charged and kept; no succeeded payment is stored as failed and no rejected one as completed |
| PaymentLedger.RefundCommitsIff | internal/services/wallet/service.go:207-273 | whatever others do between a refund's read and its update, it commits if and only if no other update of that wallet was committed in between |
| PaymentLedger.DeductCommitsIff | internal/services/wallet/service.go:136-204 | whatever others do between a deduction's read and its update, it commits if and only if no other update of that wallet was committed in between |
| FaultFreePayments.LosersHaveRivals | internal/services/wallet/service.go:136-204 | without database errors, of a payment refused at its deduction after validating, or declined and left unrefunded: between the call that read the wallet (validating, or the refund's read) and the call that turned it away, the wallet was updated, not by that payment, and some other payment with a debit on it made an update in that time |
| FaultFreePayments.EndedRowIsVerdict | internal/services/payment/service.go:182-261 | without database errors, an ended payment was saved and its stored status is exactly its verdict |
| PaymentLedger.DeclinedAndNotRefunded | internal/services/payment/service.go:225-246 | a run of two payments in which the declined one is stored as failed and its amount is gone |
| PaymentLedger.CallKeepsInv | pkg/database/repositories.go:99-120 | each repository call of any payment keeps the ledger, every read in flight and every stored status consistent |
| PaymentLedger.SoloIsARun | internal/services/payment/service.go:182-261 | a payment driven to its end in one go is a run in which only its own calls occur, whatever they answer |
| ValidatedPayments.ReachedDeductionValidated | internal/services/payment/service.go:182-195 | in every run with any errors, a payment at its deduction or past it had its validation answered on a wallet that covered it |
| ValidatedPayments.ChargedByADebit | internal/services/wallet/service.go:136-204 | in every run with any errors, a payment that counts as debited was validated so and later made one update that took its amount, and nothing else, from a wallet that covered it |
| ValidatedPayments.EndedForCause | internal/services/payment/service.go:182-261 | in every run with any errors, each verdict has one call of the payment behind it that failed, found the wallet missing, short or moved, or was accepted or declined by the gateway |
| PaymentTransactions.RowsExplainTheWallet | pkg/database/repositories.go:123-133 | at every point of every run, a wallet's debit rows less its credit rows are what is missing from it, plus orphan debits, less orphan credits |
| PaymentTransactions.LostUpdatesLeaveOrphans | internal/services/wallet/service.go:165-204 | of the calls that turn a payment down, exactly a deduction's lost update leaves its debit row, and exactly a refund's lost update its credit row |
| PaymentTransactions.EndedOrphans | internal/services/payment/service.go:182-261 | an ended payment's orphan rows are of its amount; a debit one belongs to a failed deduction, a credit one to a declined and unrefunded payment |
| PaymentService.WalletService.ValidateBalance | internal/services/wallet/service.go:82-133 | true exactly when the wallet is found and covers the amount |
| PaymentService.WalletService.DeductBalance | internal/services/wallet/service.go:136-204 | read, insert, conditional update: the tables and the answer are those of the payment machine driven through its deduction alone, for every combination of replies |
| PaymentService.WalletService.RefundBalance | internal/services/wallet/service.go:207-273 | the same for the refund |
| PaymentService.PaymentProcessor.ProcessPayment | internal/services/payment/service.go:103-264 | the whole manual flow ends with the tables and the verdict of the machine run alone, and these are told from the answers and the wallet found, as in `SoloSettles` |
| PaymentService.PaymentProcessor.FinishPayment | internal/services/payment/service.go:215-261 | so does the continuation from the gateway call on |
| PaymentService.PaymentProcessor.ChargePayment | internal/services/payment/service.go:195-264 | the flow from the deduction on ends as the machine does from there |
| PaymentVerdicts.SoloSettles | internal/services/payment/service.go:103-264 | for every table and every combination of answers: which call stops a payment and with what verdict; it is charged exactly when saving, validating and the three deduction calls answer and the wallet covers it, and paid back exactly when, besides, the gateway declines and the three refund calls answer; the wallets, rows and stored status afterwards |
| PaymentService.SoloRefuses | internal/services/payment/service.go:182-192 | alone, a payment that is not covered touches no wallet and no transaction, and is stored as failed |
| PaymentService.SoloCharges | internal/services/payment/service.go:195-261 | alone, an approved payment charges once: one debit row, one version, stored as completed |
| PaymentService.SoloRefunds | internal/services/payment/service.go:195-246 | alone, a declined payment gives everything back, at two versions and two rows |
| PaymentMachine.SoloResumes | internal/services/payment/service.go:182-261 | driving part of a payment and then the rest is driving the whole |
| WalletRepository.Repository.GetWalletByUserID | pkg/database/repositories.go:81-96 | the stored wallet, or none on an error or a missing row |
| WalletRepository.Repository.UpdateBalance | pkg/database/repositories.go:99-120 | writes balance and next version exactly when the version matches, and reports whether it did |
| WalletRepository.Repository.CreateTransaction | pkg/database/repositories.go:123-133 | appends one row, or fails and appends none |
| WalletRepository.Repository.Save | pkg/database/repositories.go:28-42 | stores the payment as pending, or fails |
| WalletRepository.Repository.UpdateStatus | pkg/database/repositories.go:64-68 | sets the status of a stored payment; a missing one is not an error |
| SagaOrchestrator.SagaRepository.SaveSaga | pkg/database/repositories.go:283-303 | replaces one saga's row |
| SagaOrchestrator.SagaRepository.UpdateSagaState | pkg/database/repositories.go:329-333 | changes the state column only |
| SagaOrchestrator.SagaRepository.UpdateStepStatus | pkg/database/repositories.go:336-359 | changes the status of the first step with the id in the stored copy, or of none, and saves the copy back, its `current_step` unchanged; a missing saga is an error |
| SagaOrchestrator.Orchestrator.RegisterStepExecutor | internal/saga/orchestrator.go:109-112 | adds a service |
| SagaOrchestrator.Orchestrator.ExecuteStep | internal/saga/orchestrator.go:257-318 | makes exactly the effects of a step: executing mark, attempts to the first success or the last retry, outcome mark; the row is their replay |
| SagaOrchestrator.Orchestrator.RunAttempts | internal/saga/orchestrator.go:271-318 | the retry loop: status, retry count, effects and row of the attempts |
| SagaOrchestrator.Orchestrator.CompensateSaga | internal/saga/orchestrator.go:321-368 | makes exactly the effects of compensation, last completed step first, passing over failures; the row is their replay |
| SagaOrchestrator.Orchestrator.ExecuteSaga | internal/saga/orchestrator.go:211-254 | ends with the record, the effects and the row of a whole run; a row whose step statuses were the record's ends with the state and the statuses that the record ends with |
| SagaOrchestrator.Orchestrator.SavePaymentSaga | internal/saga/orchestrator.go:115-197 | what holds where the code spawns the run and returns: the four-step payment saga, its actions and compensations by name, is stored as started and ready to run, or, if it cannot be saved, nothing is stored |
| SagaOrchestrator.Orchestrator.StartPaymentSaga | internal/saga/orchestrator.go:115-208 | a saga that cannot be saved is an error and leaves nothing; otherwise the four-step payment saga is stored as started, then run, and record and row end completed or compensated as `PaymentSagaCompletes` says |
| SagaOrchestrator.Orchestrator.RecoverSaga | internal/saga/orchestrator.go:371-398 | one stored saga: runs it from the stored step if in progress, compensates it if failed, otherwise does nothing |
| SagaTheorems.Outcome | internal/saga/orchestrator.go:211-368 | for every answer of every executor, a run ends completed with all steps completed, or compensated with steps before the first failing one compensated or completed as their compensation worked, that one failed, later ones untouched, and retry counts exact |
| SagaTheorems.ForwardCalls | internal/saga/orchestrator.go:257-318 | exactly which executions are called: each step up to the failing one, each attempt up to its first success |
| SagaTheorems.CompensationOrder | internal/saga/orchestrator.go:321-368 | compensations are called in strictly decreasing order, once each, and for exactly the steps before the failing one that have one |
| SagaRows.StoredOutcome | internal/saga/orchestrator.go:211-368 | after a whole run of a fresh saga the stored row says completed exactly when every step succeeds and compensated otherwise, as the record does; each stored step status is the one the record ends with; nothing else of the row has changed |
| SagaRows.RunMirrors | internal/saga/orchestrator.go:211-254 | a run from any step, on a row with the record's step statuses, leaves the row with the record's final state and statuses |
| SagaRows.PaymentSagaCompletes | internal/saga/orchestrator.go:123-181 | the payment saga completes, in memory and in its row, exactly when the wallet validates and deducts within four attempts each, the gateway charges within three and the payment is updated within four; otherwise it is compensated, by the refund alone, called exactly when the wallet had been charged |
| SagaWrites.WritesFollowCalls | internal/saga/orchestrator.go:257-368 | at every effect of a run: no step is executed before it is stored as executing, or again after it succeeded; completed is stored only after a success and failed only without one; a step is compensated only while stored as completed in a saga stored as failed, and stored as compensated only after that worked; the saga is stored as completed only when every step is |
| SagaTheorems.CrashPoint | internal/saga/orchestrator.go:211-318 | after any number of effects the stored step is 0, the stored frontier is the number of successful executions or one less, and a step has been executed exactly when more than its index have |
| SagaTheorems.SagaNet | internal/saga/orchestrator.go:257-368 | over a whole run a step charges once if it is passed, unless a later step fails and its compensation works |
| SagaTheorems.PaymentSagaNet | internal/saga/orchestrator.go:123-181 | the payment saga changes the balance by minus the amount when it completes, and by 0 otherwise unless the refund was called and failed |
| SagaRecovery.CrashState | internal/saga/orchestrator.go:211-368 | the row is started only at a crash before the first write, final only after the last, and otherwise in progress or failed; it is offered to recovery at every crash point but the last |
| SagaRecovery.RecoverySettles | internal/saga/orchestrator.go:379-387 | a crash in progress and any recovery, whichever step fails first in it: the wallet pays once for an execution before the crash, once if the recovery gets past the step, and gets back at most one of the two; the recovery's final state |
| SagaRecovery.RepeatedRecoverySettles | internal/saga/orchestrator.go:371-398 | any number of attempts that crash in progress and then a recovery that ends: the wallet pays once for each attempt that had executed the step, once more if the last recovery gets past it, and gets back at most one of them |
| SagaRecovery.RowRunsAsTheSaga | internal/saga/orchestrator.go:379-387 | whatever an earlier run has stored, running the row again makes every effect of the saga as it was first stored |
| SagaRecovery.FrontierRepeatsAtMostOne | internal/saga/orchestrator.go:211-318 | resumed from the stored frontier, a step succeeds twice exactly when the crash came between its success and the write of it and the resumed run gets past it |
| SagaRecovery.RecoveredSagaChargesAgain | internal/saga/orchestrator.go:379-387 | a recovery that completes charges once if and only if the crash came before the step had been executed, and otherwise twice |
| SagaRecovery.RecoveredSettlesAsUncrashed | internal/saga/orchestrator.go:379-387 | the recovered saga costs what it would have cost uncrashed if and only if the amount is 0 or the crash came before the step had been executed |
| SagaRecovery.RecoveredSettlesRightIff | internal/saga/orchestrator.go:379-387 | it costs what its final state says (the amount if completed, nothing if compensated) if and only if, besides, the recovery completes, never gets past the step, or gives it back |
| SagaRecovery.RecoveryLosesTheAmount | internal/saga/orchestrator.go:379-393 | a payment saga on a wallet that covers the amount once crashes after its deduction; the recovery fails to validate, calls no compensation and ends compensated, and the amount is gone |
| SagaRecovery.RecoveredFailureIsNotCompensated | internal/saga/orchestrator.go:388-393 | a crash during compensation: recovery calls nothing and marks the saga compensated, so a deduction not yet refunded stays |
| SagaRecovery.StartedIsNeverResumed | pkg/database/repositories.go:362-394 | a crash leaves a row that is offered to recovery and that recovery does nothing with if and only if it comes before the first write |
| EventLog.AppendKeepsInv | pkg/eventstore/memory_store.go:116-174 | every accepted batch keeps: sequence numbers strictly increasing and within the counter, each index equal to the log filtered to its aggregate, its k-th event at version k, its recorded version its length |
| EventLog.AppendExtends | pkg/eventstore/memory_store.go:140-171 | an append adds its stamped batch to the end of its own aggregate's events and nothing to any other's |
| EventLog.AppendKeepsFields | pkg/eventstore/memory_store.go:140-171 | a stored event keeps every field it came with, a set time included, apart from its sequence, its version and a time that was not set, which are the next ones and now |
| EventLog.StoredVersion | pkg/eventstore/memory_store.go:78-93 | a stored event's version is positive and at most its aggregate's, so it can never be the next one |
| EventLog.IndexedReadIsFilteredRead | pkg/eventstore/memory_store.go:209-230 | reading an aggregate through the index gives what filtering the whole log gives |
| EventLog.MemorySelects | pkg/eventstore/memory_store.go:401-447 | an event of the log is selected exactly when each bound that the filter sets holds of its own field, the lower sequence bound exclusive |
| EventLog.PostgresSelects | pkg/eventstore/postgres_store.go:373-452 | the same with the lower sequence bound inclusive |
| EventLog.PagingIsComplete | pkg/eventstore/memory_store.go:177-206 | pages at offsets 0, L, 2L and so on until one is empty, concatenated, are all matching events once, in order |
| EventStore.MemoryEventStore.constructor | pkg/eventstore/memory_store.go:49-60 | an empty open store satisfies the invariant |
| EventStore.MemoryEventStore.StampBatch | pkg/eventstore/memory_store.go:140-158 | stamps a batch in order up to the first event that does not fit; it gets through exactly when every event fits and none is met twice, and what is stored is not touched |
| EventStore.MemoryEventStore.AppendEvents | pkg/eventstore/memory_store.go:116-174 | accepted exactly when open, of one aggregate, distinct and each naming no version or its next one, and then stored whole; refused, with the first reason that applies, it leaves log, index, versions and every stored event as they were |
| EventStore.MemoryEventStore.AppendEvent | pkg/eventstore/memory_store.go:63-113 | accepted exactly when open, complete and naming no version or the next one, else refused with the first reason that applies; a stored event appended again is refused and keeps its values |
| EventStore.MemoryEventStore.GetEvents | pkg/eventstore/memory_store.go:177-206 | exactly the events that match the filter, in order, cut to its page |
| EventStore.MemoryEventStore.GetEventsByAggregate | pkg/eventstore/memory_store.go:209-230 | the aggregate's events from a version on, in order |
| EventStore.MemoryEventStore.CreateSnapshot | pkg/eventstore/memory_store.go:274-293 | replaces the aggregate's snapshot and nothing else |
| EventStore.MemoryEventStore.GetSnapshot | pkg/eventstore/memory_store.go:296-310 | the latest snapshot, or none |
| WalletEvents.LoadIsReplay | pkg/eventstore/aggregate.go:138-173 | with an exact snapshot or none, loading is replaying the whole history |
| WalletEvents.LoadVersionIsReplay | pkg/eventstore/aggregate.go:176-214 | loading version v is replaying the first v events, whether or not the snapshot qualifies |
| WalletEvents.LoadIsLoadCurrent | pkg/eventstore/aggregate.go:138-214 | loading is loading at the current version |
| WalletEvents.ChainBalances | pkg/eventstore/aggregates.go:247-300 | along a chain of events the balance is the sum added less the sum deducted, and never negative |
| WalletEvents.ReplayChain | pkg/eventstore/aggregates.go:303-324 | replaying a chained, numbered history gives its last balance and its length as version |
| WalletClients.NoLostUpdate | pkg/eventstore/aggregate.go:102-173 | clients that load before each command, interleaved in any way: every wallet's log is a chain and its balance the sum added less the sum deducted, never negative |
| WalletCommands.CommandIsStored | pkg/eventstore/aggregates.go:247-300 | at any point of any run, a client loads, commands and saves with others in between: exactly when the amount is positive, a deduction is covered by the balance loaded, and no other event of the wallet was stored since, one event is stored, of the right type and amounts, and the balance moves by the amount; otherwise nothing is stored |
| WalletClients.OnlyOneSaves | pkg/eventstore/memory_store.go:140-158 | of clients holding commands on a wallet loaded at one version, once one has saved no other ever can |
| WalletClients.StepKeepsInv | pkg/eventstore/aggregates.go:247-324 | each load, command or save keeps the store, every chain and what each client holds consistent |
| WalletClients.OneCommandALoad | pkg/eventstore/aggregate.go:79-83 | commands issued on one loaded wallet fit a store at any version as a batch if and only if there are none, or one and the version is still the one loaded |
| WalletClients.ReuseLosesUpdates | pkg/eventstore/aggregates.go:322 | reusing an aggregate after saving: its next event is accepted if and only if exactly one foreign event came in between, and then overwrites it |
| WalletClients.LoadThroughSnapshot | pkg/eventstore/aggregate.go:138-173 | through a snapshot taken after k events and recorded at r: exactly when the loaded balance is right and exactly when the version is |
| WalletClients.SnapshotBlocksTheWallet | pkg/eventstore/aggregate.go:239-250 | a command issued on a wallet loaded through the snapshot the code takes is allowed and does not fit |
| SnapshotClients.SnapshotBlocksForever | pkg/eventstore/aggregate.go:102-173 | in every run from a store with that snapshot whose clients of the wallet hold nothing yet, no event of the wallet is ever stored again |
| SnapshotChains.SaveThroughSnapshot | pkg/eventstore/aggregate.go:138-173 | a command on a wallet loaded through a snapshot recorded at r, on a chained log of n events: saving it keeps the chain exactly when r < n, breaks it exactly when r = n, and is refused exactly when r = n + 1 |
| SnapshotChains.ChainedIff | pkg/eventstore/aggregate.go:102-173 | with snapshots at any frequency, any number of clients that load before each command, and any interleaving: a wallet's log is a chain if and only if no accepted save goes back to a load that found a snapshot recorded at the log's version or beyond |
| SnapshotChains.CarefulClientsLoseNothing | pkg/eventstore/aggregate.go:102-173 | if every load finds no snapshot or one recorded below the aggregate's version, every wallet's log is a chain and its balance the sum added less the sum deducted, never negative |
| SnapshotChains.OneClientIsCapped | pkg/eventstore/aggregate.go:231-250 | with snapshots at frequency f, a wallet used by one client, who loads before each command, has a chained log of at most f - 1 events (one, if f is 1), in any run from an empty store |
| SnapshotClients.StaleSaveHidesItself | pkg/eventstore/aggregate.go:121-134 | after that snapshot a fitting save by a client that had loaded before it gives exactly the hypothesis of `SnapshotLosesUpdates` |
| SnapshotClients.RaceBreaksTheChain | pkg/eventstore/aggregate.go:121-134 | a run in which the condition of `ChainedIff` fails: a client loads between another's append and its snapshot and saves after it, and the next load, command and save is accepted and breaks the chain |
| SnapshotClients.RaceIsReached | pkg/eventstore/aggregate.go:121-134 | such a race arises from an empty store after one command |
| WalletClients.SnapshotLosesUpdates | pkg/eventstore/aggregate.go:239-250 | if a client that had loaded earlier saves after that snapshot, the next load skips its event and the next save breaks the chain |
| AggregateRepository.WalletAggregate.constructor | pkg/eventstore/aggregates.go:230-244 | a new wallet at balance 0 and version 0 with nothing to save |
| AggregateRepository.WalletAggregate.AddUncommittedEvent | pkg/eventstore/aggregate.go:79-83 | the event takes the next version and waits; the version moves on |
| AggregateRepository.WalletAggregate.ApplyEvent | pkg/eventstore/aggregates.go:303-324 | takes the event's new balance and moves the version, or fails on another payload and changes nothing |
| AggregateRepository.WalletAggregate.Execute | pkg/eventstore/aggregates.go:247-300 | accepted exactly when the amount is positive and, for a deduction, at most the balance; then the balance moves by the amount, the version by two, and one fresh event of that type with the amount and both balances waits |
| AggregateRepository.WalletAggregate.LoadFromSnapshot | pkg/eventstore/aggregates.go:355-379 | every field is the snapshot's |
| AggregateRepository.Repository.Save | pkg/eventstore/aggregate.go:102-135 | saves all that waits, exactly when every event names the version that is next for it, and takes a snapshot if one is due; refused, everything still waits and only the counter may have moved |
| AggregateRepository.Repository.CreateSnapshot | pkg/eventstore/aggregate.go:231-250 | stores the aggregate's state at its own version when that is a multiple of the frequency |
| AggregateRepository.CommandSaveIsClientSave | pkg/eventstore/aggregate.go:102-121 | saving one command through the repository is the step that the interleaved clients take: tagging changes nothing and the same events are accepted |
| AggregateRepository.SavedAsIssued | pkg/eventstore/aggregate.go:102-121 | an accepted save stores each waiting event with its id, type, payload and time, under the wallet's id and type, with who caused it and the next numbers |
| AggregateRepository.SnapshotTakenIsDoubled | pkg/eventstore/aggregate.go:231-250 | load at version n, command and save with a snapshot due: the snapshot holds the state after n + 1 events and is recorded at n + 2, which is the hypothesis of `SnapshotBlocksTheWallet` |
| AggregateRepository.Repository.Load | pkg/eventstore/aggregate.go:138-173 | snapshot and tail: the value that the load function gives, or an error exactly when an event cannot be applied |
| AggregateRepository.Repository.LoadVersion | pkg/eventstore/aggregate.go:176-214 | the same for a version |
| ProjectionTheorems.ResumedIsUninterrupted | pkg/readmodels/store.go:252-345 | however a projection is cut into sessions over a growing log, with the inclusive bound its rows are those of one pass: each event up to the first unreadable one, once and in order |
| ProjectionTheorems.InclusiveFetchesTheRest | pkg/eventstore/postgres_store.go:414-418 | from a checkpoint, the inclusive bound fetches exactly the events not yet processed |
| ProjectionTheorems.ExclusiveSkipsOne | pkg/eventstore/memory_store.go:430-432 | the exclusive bound fetches them if and only if the next event is not numbered one past the checkpoint, and otherwise misses exactly that event |
| ProjectionTheorems.StopInsideAnEvent | pkg/readmodels/store.go:281-313 | a stop after an event's rows and before its checkpoint is undone by resuming if and only if the event has no handler |
| ProjectionTheorems.StopAfterTheBalanceRow | pkg/readmodels/store.go:419-424 | a stop after a movement's balance row: resuming counts it twice there and once in the summary, and nothing else differs |
| ProjectionTheorems.StopAfterBothRows | pkg/readmodels/store.go:419-424 | a stop after both of its rows: resuming counts it twice in both and its amount twice in the summary, and nothing else differs |
| ProjectionStops.StoppedEventCountsTwice | pkg/readmodels/store.go:281-313 | a stop between an event's rows and its checkpoint, at the end of the resumed pass: the rows are those of one pass over the log with that event in it twice, for every type of event |
| ProjectionStops.StoppedMovementOverCounts | pkg/readmodels/store.go:419-424 | a stop between a movement's two rows, at the end of the resumed pass: the rows of one uninterrupted pass, except that the wallet's balance row counts one movement too many |
| ProjectionStops.ExclusiveSessionsLose | pkg/eventstore/memory_store.go:430-432 | sessions over consecutively numbered logs on the exclusive bound: the rows of one pass over what they kept; each restart that moved on has lost one event for good, and at most the last event is still missed besides |
| ProjectionTheorems.WalletRowsAgree | pkg/readmodels/store.go:392-471 | after any pass, with no colon in a user id, a wallet's two rows are absent or hold its last balance, time, version and sequence, its number of movements and its exact credits and debits, whatever other wallets did |
| ProjectionTheorems.BooksBalanceIffChained | pkg/readmodels/store.go:546-579 | the summary's balance is credits less debits after every movement if and only if the movements form a chain from 0 |
| ProjectionTheorems.StatusRowAgrees | pkg/readmodels/store.go:511-543 | after any pass in any order, a user's counters are the counts of its events and pending is the surplus less its least value so far |
| ProjectionTheorems.LowWaterIsLeast | pkg/readmodels/store.go:527-535 | that least value is the minimum of initiated less resolved over all prefixes |
| ProjectionTheorems.CountersAddUp | pkg/readmodels/store.go:511-543 | completed, failed and pending together are the total plus the resolutions that found none pending |
| RowsByEventType.WalletRowsByType | pkg/readmodels/store.go:371-471 | after any pass, with no colon in a user id: a wallet's rows are there exactly when the log has a WalletDeducted, WalletCredited or WalletRefunded event of it; debits are the sum over the first type, credits over the other two, and the rest is what the last of them says |
| RowsByEventType.PaymentCountersByType | pkg/readmodels/store.go:473-543 | after any pass in any order: total, amount, completed and failed are the counts and sum over the user's PaymentInitiated events and over the PaymentCompleted and PaymentFailed events it caused; pending is how far those open exceed their least number so far |
| Projection.HandledByName | pkg/readmodels/store.go:371-389 | what one event does to each row, by the name of its type; other types leave every row alone |
| Projection.WalletPartsMeet | pkg/readmodels/store.go:399 | two wallets of different users share a key exactly when the longer user id is the shorter one, a colon, and a part that the other currency begins with |
| Projection.OwnRows | pkg/readmodels/store.go:547 | without colons different wallets have different rows |
| Projection.ColonUsersClash | pkg/readmodels/store.go:399 | with a colon two users write one row |
| ReadModels.MemoryReadModelStore.Set | pkg/readmodels/store.go:46-51 | replaces one row |
| ReadModels.MemoryReadModelStore.Get | pkg/readmodels/store.go:53-69 | the row, or none |
| ReadModels.Projector.UpdateWalletSummary | pkg/readmodels/store.go:546-579 | adds to the right total, counts, and takes the balance from the balance row |
| ReadModels.Projector.HandleMovement | pkg/readmodels/store.go:392-471 | writes both wallet rows, or cannot read the payload and writes none |
| ReadModels.Projector.UpdatePaymentStatus | pkg/readmodels/store.go:511-543 | counts one event, pending not below 0 |
| ReadModels.Projector.RunHandler | pkg/readmodels/store.go:371-389 | dispatches by the name of the event's type: a deduction adds to the debits, a credit or refund to the credits, a payment event to its counter, and every other type writes nothing; fails exactly when the payload cannot be read, and then writes nothing |
| ReadModels.Projector.ProcessEvent | pkg/readmodels/store.go:281-313 | handled once and checkpointed; an unreadable event is tried three times and leaves rows and checkpoint |
| ReadModels.Projector.LoadCheckpoint | pkg/readmodels/store.go:316-330 | the position is the stored checkpoint, or 0 |
| ReadModels.Projector.UpdateCheckpoint | pkg/readmodels/store.go:333-345 | position and stored checkpoint move together |
| ReadModels.Projector.CatchUp | pkg/readmodels/store.go:252-278 | processes what the store answers from the checkpoint on, to the first failure; succeeds exactly when every event can be read |
| ReadModels.Projector.Start | pkg/readmodels/store.go:185-204 | a restarted projector goes on from its stored checkpoint, and succeeds exactly when every event it fetches can be read |
| ConcurrentWalletTheorems.Linearizable | pkg/eventstore/concurrency_control.go:284-554 | under any mix of locked and optimistic calls and assignments, the balance is the atomic wallet's over the commits in version order, each success is one covered commit within the call, each shortage is true at a moment within the call, and no failed call leaves a commit |
| ConcurrentWalletTheorems.AnswersAreTrue | pkg/eventstore/concurrency_control.go:284-554 | in every run a call answered that the funds are short is a deduction of more than the balance at a moment within the call, never a refund; a success moved the balance by its amount, a deduction from at least as much |
| ConcurrentWalletTheorems.LaterCallsCommitLater | pkg/eventstore/concurrency_control.go:284-554 | a call made after another has succeeded takes effect after it |
| ConcurrentWalletTheorems.BalanceNeverNegative | pkg/eventstore/concurrency_control.go:306-314 | without negative amounts no run reaches a negative balance |
| ConcurrentWalletTheorems.RunCounts | pkg/eventstore/concurrency_control.go:557-566 | version less transaction count is one more than the number of assignments; without any, the balance is what successful calls paid in less what they took out |
| ConcurrentWalletTheorems.BalanceSinceAssignment | pkg/eventstore/concurrency_control.go:557-566 | in every run the balance is the amount last assigned and what calls committed since paid in, less what they took out |
| ConcurrentWalletTheorems.ConflictMeansFiveOthers | pkg/eventstore/concurrency_control.go:329-398 | a call that reports a conflict saw at least five commits during it, none its own |
| ConcurrentWalletTheorems.FiveNeverConflict | pkg/eventstore/concurrency_control.go:486-527 | in a run of at most five operations on a balance none reports a conflict |
| ConcurrentWalletTheorems.SixCanConflict | pkg/eventstore/concurrency_control.go:486-527 | a run of six in which one does |
| ConcurrentWallet.TurnKeepsInv | pkg/eventstore/concurrency_control.go:329-398 | each turn of each call keeps the commits sound and every version in flight honest |
| ConcurrentWalletService.AttemptIsTwoTurns | pkg/eventstore/concurrency_control.go:334-398 | an optimistic attempt, with any actions of others between its read and its write, answers and leaves the cell as the service's attempt does for the commits made in between |
| ConcurrentWalletService.OthersDisturb | pkg/eventstore/concurrency_control.go:329-398 | while others act, a call stands still and the cell takes exactly their commits |
| ConcurrentWalletService.EndIsUnique | pkg/eventstore/concurrency_control.go:334-398 | what others commit between reads and writes determines how an optimistic call ends |
| ConcurrentWalletService.UndisturbedIsLocked | pkg/eventstore/concurrency_control.go:329-398 | left alone, an optimistic call does what a locked one does |
| ConcurrentWalletService.NotOvertaken | pkg/eventstore/concurrency_control.go:284-398 | in any world and mode, a call that nobody overtakes succeeds exactly when it is a refund or a deduction of at most the balance, and moves the balance by its amount; otherwise it answers that the funds are short and moves nothing |
| ConcurrentWalletService.EndsPlainly | pkg/eventstore/concurrency_control.go:329-398 | an optimistic call is short of funds only as a deduction of more than the balance it leaves, succeeds only at an attempt that could afford it and was not overtaken, is in conflict exactly when all five could afford it and were overtaken, and otherwise, if it could always afford it, succeeds |
| ConcurrentWalletService.WalletBalance.LockedUpdate | pkg/eventstore/concurrency_control.go:300-314 | check and write under one lock |
| ConcurrentWalletService.WalletBalance.OptimisticUpdate | pkg/eventstore/concurrency_control.go:329-398 | ends at its first attempt that lacks the funds or is not overtaken, or in conflict when all five were overtaken |
| ConcurrentWalletService.ConcurrentWalletService.GetOrCreateBalance | pkg/eventstore/concurrency_control.go:175-194 | the key's own balance object, new ones at 0 and version 1 |
| ConcurrentWalletService.ConcurrentWalletService.ChangeFunds | pkg/eventstore/concurrency_control.go:270-281 | under each strategy only the key's cell changes; not overtaken, a refund or a deduction of at most the balance succeeds and moves it by the amount, and a larger one is short and moves nothing; overtaken, it ends as the optimistic loop does; an unknown strategy changes nothing |
| ConcurrentWalletService.ConcurrentWalletService.SetBalance | pkg/eventstore/concurrency_control.go:557-566 | assigns the balance and moves the version, not the transaction count |
| CircuitBreaker.StateTellsHistory | internal/services/gateway/service.go:56-105 | after any sequence of calls, current failures are those since the last success or reset, and the breaker is closed exactly when they are below the maximum |
| CircuitBreaker.TurnsAwayIff | internal/services/gateway/service.go:74-89 | a caller is turned away exactly when the maximum failed in a row, the last within the timeout, and nobody has probed since |
| CircuitBreaker.RequestsAreCalls | internal/services/gateway/service.go:139-189 | however the breaker was called before, requests leave it where the calls they make leave it: each asks, and unless turned away reports a failure if there was no answer and a success if there was any |
| CircuitBreaker.RequestOutcome | internal/services/gateway/service.go:139-210 | after any calls and requests, a request is paid exactly when it is not turned away and the answer says success or completed, rejected when it says anything else, failed when there is none |
| CircuitBreaker.WindowBound | internal/services/gateway/service.go:139-189 | in any window of length T of failing requests, one after another, at most maxFailures + floor(T / resetTimeout) reach the gateway |
| CircuitBreaker.WindowBoundAfterAnyCalls | internal/services/gateway/service.go:56-105 | the bound holds from wherever any sequence of calls has taken a new breaker |
| CircuitBreaker.WindowBoundIsMet | internal/services/gateway/service.go:139-189 | for every breaker there are windows that meet that bound |
| CircuitBreaker.RejectionsNeverTrip | internal/services/gateway/service.go:189-208 | if no call fails every request is let through, however many payments are rejected |
| GatewayService.Circuit.CanExecute | internal/services/gateway/service.go:74-89 | admits unless open with its timeout running; an admission from open becomes half-open |
| GatewayService.Circuit.OnSuccess | internal/services/gateway/service.go:92-95 | closes and clears |
| GatewayService.Circuit.OnFailure | internal/services/gateway/service.go:98-105 | counts, notes the time, opens at the maximum |
| GatewayService.Service.ProcessPayment | internal/services/gateway/service.go:139-210 | one request through the breaker: outcome and new breaker for every answer |
| GatewayService.Service.ResetCircuitBreaker | internal/services/gateway/service.go:329-332 | closes and clears |
| QueryBuilder.BuildQuery | pkg/eventstore/postgres_store.go:373-452 | for every filter, the clause with its arguments accepts exactly the events the filter matches, placeholders run 1 to k in order, each bound once, limit and offset included |
| QueryBuilder.BuiltQueryAnswersTheFilter | pkg/eventstore/postgres_store.go:666-713 | however the rows lie in the table, the only answer is the filter's events in sequence order cut to its page |
| QueryBuilder.PagesAgreeIff | pkg/eventstore/memory_store.go:189-203 | exactly when the two stores cut the same page |
| QueryBuilder.StoresDifferAtTheBound | pkg/eventstore/memory_store.go:430-432 | the two stores' predicates differ on exactly the event the lower sequence bound names |
| PartitionRouter.ShortIdsAreRouted | pkg/eventstore/concurrency_control.go:700-708 | an ASCII id of at most 12 characters does not wrap and lands in 1..n where its unwrapped hash says |
| PartitionRouter.RoutingRange | pkg/eventstore/concurrency_control.go:700-708 | any id lands in 2-n..n, and on a partition exactly when its hash is not negative or n divides it |
| PartitionRouter.ThirteenCanMiss | pkg/eventstore/concurrency_control.go:700-708 | an id of 13 characters with no partition among four |
| PartitionRouter.UserOrderIsKept | pkg/eventstore/concurrency_control.go:633-694 | in every run a user's processed events followed by its queued ones are its accepted ones in order, on one worker |
| PartitionRouter.AcceptedIff | pkg/eventstore/concurrency_control.go:633-663 | an event is accepted exactly when it names a user, the user has a partition, and its channel has room |
| PartitionRouter.HundredAreAccepted | pkg/eventstore/concurrency_control.go:617-663 | of a routed user's events submitted before its worker has a turn, the first 100 are accepted and wait in order, and every later one finds the channel full |
| PartitionRouter.AtMostHundredWait | pkg/eventstore/concurrency_control.go:617 | in every run no channel holds more than 100 events |
| PartitionRouter.StoppedStays | pkg/eventstore/concurrency_control.go:666-678 | a worker that has stopped processes nothing more, and what is routed to it stays in its channel |
| PartitionedProcessor.PartitionWorker.Turn | pkg/eventstore/concurrency_control.go:666-694 | takes and processes the head of its channel unless stopped or empty |
| PartitionedProcessor.PartitionedEventProcessor.constructor | pkg/eventstore/concurrency_control.go:607-630 | one idle worker for each of 1..n, and none when n is not positive |
| PartitionedProcessor.PartitionedEventProcessor.GetPartitionForUser | pkg/eventstore/concurrency_control.go:700-708 | the loop computes the wrapping hash and its truncated remainder plus 1 |
| PartitionedProcessor.PartitionedEventProcessor.ProcessEvent | pkg/eventstore/concurrency_control.go:633-663 | routes to the user's worker or says why not, changing only that worker's channel |
| PartitionedProcessor.PartitionedEventProcessor.WorkerTurn | pkg/eventstore/concurrency_control.go:666-678 | a turn is a step of the queue machine |

## Left out

- HTTP handlers, Kafka, Redis, migrations, configuration, logging, metrics, health checks and published events. The payment flow takes only "the amount is positive" from the handler.
- SQL execution and isolation: a repository call is atomic, and an error leaves the tables as they were.
- The text of the SQL: a query is its list of conditions with their placeholders.
- JSON, UUIDs and times: records are typed, ids distinct, times inputs. A payload of another shape is a decoding error; Go's decoder would let missing fields pass.
- float64: balances and amounts are integers, so rounding is not modelled.
- The payment service's branch that hands a payment to the orchestrator (internal/services/payment/service.go:146-178): the orchestrator is modelled by itself, and the repository sets no executors, so each is a parameter.
- Writes of the orchestrator to the saga table are taken to succeed. The branch on a cancelled context is unreachable in executeSaga, which is given a background context.
- Recovery handles one saga; the code spawns one goroutine for each.
- `maxRetries` is a natural number, as every step in the code has it.
- Optimistic saving is about the memory store: the Postgres store ignores the versions it is given (pkg/eventstore/postgres_store.go:316).
- Subscriptions and their channels; the projector is driven by catch-up, and by a store whose writes succeed.
- `GetAll`, `Delete` and the read methods of the projection service; `Exists`, `GetVersion` and the other reads of the event store.
- The payment aggregate: no event gives it the status that completing it needs, so its completion is unreachable.
- `UserLockManager`: a lock is granted or not asked for. A waiter that times out keeps the mutex it later acquires, so only safety is claimed.
- The breaker's fields are not locked in the code; its calls are modelled as atomic.
- Backoff, latency and random scenarios: the gateway's answer is an input.
- A processor with no partitions panics in its routing; the model answers `DividesByZero` instead.
- SagaOrchestrator.Orchestrator.StartPaymentSaga: the code returns before the run it spawns has ended, the method after it; `SavePaymentSaga` states what holds at the code's return, and `CrashPoint` what holds at every point of the run.
- ReadModels.Projector.Start: the subscription that follows the catch-up.
- The dead-letter queue, the compensation manager, the event router, the reflection applier and the event-based payment saga.
- ConcurrentWalletService.ConcurrentWalletService.ChangeFunds: what other callers commit between a read and a write is an input; `AttemptIsTwoTurns` ties it to the interleavings of the machine in `ConcurrentWallet`.
- EventStore.MemoryEventStore.AppendEvents: a batch refused midway has stamped its earlier events, as in the code; the contract says that no stored event changed.
