# TransactGo: money movement, settlement and limits

A Dafny model of the parts of TransactGo (a wallet and ledger service) in which money, or a decision about
money, can go wrong when several things happen at once: database transactions that hold row locks, queue jobs
that retry, webhooks that are redelivered, idempotency keys, limits over time, fees, statements and currency
conversion. `dafny verify dfyconfig.toml` checks all of it.

## How it is put together

Results that hold "in every run" quantify over every finite schedule of small steps, from an empty system; a
step that is impossible when its turn comes does nothing, so no schedule is excluded.

- **Ledger and transactions.** `Ledger` has the tables, one posting (`debit`/`credit`), and what each
  money-moving transaction does to the tables when it runs alone (`Execute`, `ApplyEvent`, `Replay`).
  `LedgerInvariants` shows what one change keeps. `TransactionEngine` runs the same transactions one statement at
  a time against the committed rows and their own uncommitted writes, with `SELECT ... FOR UPDATE` locks held
  until commit or rollback. `Serializability` proves that every schedule equals the committed changes replayed
  alone in commit order, and `EngineTheorems` then carries the invariants over to every schedule. `Deadlock` says
  exactly who can wait for whom for ever. `LedgerOutcomes` says in the rows' columns alone when each change
  succeeds and what it leaves, for every commit of every schedule, and that whatever is allowed can commit.
  `Services` has the services and queue handlers as imperative code on a `Database` object, each proved to do
  what these specifications say.
- **Settlement.** `Settlement` interleaves job attempts, provider answers, webhook deliveries, retries and
  failure hooks over the same tables. The guard of `completeDeposit` and the two protections it lacks are
  parameters (`Policy`); `AS_WRITTEN` is the code. What may go wrong (a worker's write, the queue behind a
  notification, a pending answer that is paid later, a dying worker) is a parameter of the runs (`Faults`).
  `SettlementTheorems`, `SettlementPolicies`, `SettlementPayouts` and `SettlementOutcomes` say what every run
  keeps, exactly which policies credit each deposit once, exactly how often a withdrawal can be paid out, and
  exactly when FAILED means unpaid. There a deposit's credit is one step; `SettlementRefinement` takes it
  statement by statement on the transaction engine and proves that every such run is a run of `Settlement`;
  `SettlementRealised` proves the converse. `SettlementCauses` says what one attempt or webhook does to its row
  and which event of the run every final status goes back to. `WebhookIntake` is the controller in front of it.
- **Idempotency.** `Idempotency` is the protocol of the interceptor; `IdempotentTransfers` puts it in front of the
  transaction engine, so that "at most one execution" becomes "at most one row".
- **The rest.** `DailyLimit`, `Velocity`, `Lockout`, `FeeEngine`, `FeeCache`, `Statements` and
  `ExchangeRates` each model one component; `MapSums` and `Wrappers` are helpers.

Money is `int`, the declared type of the columns. Percentages, tax rates and exchange rates are exact fractions
at the scales the columns declare (6, 4 and 8 decimals). `Math.round` is floor(x + 1/2).

## What the code does that its documentation does not say

The model follows the code in each case.

- `handleDeposit` and the webhook path both have a row that is no longer PENDING when they call
  `completeDeposit`, which accepts PENDING only. No deposit is ever credited, and since deposits are the only
  way in, no wallet ever holds money (`SettlementTheorems.AsWrittenNothingIsEverCredited`).
- The interceptor's comment says a failed request can be retried with its key. The stored error is replayed
  and no cleanup removes it (`Idempotency.FailedKeysNeverRunAgain`).
- Velocity is described as a rolling window. It is one counter whose time to live every request refreshes: it
  counts exactly the window while a burst fits into one, and more after that, so it never lets more through but
  blocks steady traffic for good (`Velocity.CountsWindowsIff`, `Velocity.SteadyTrafficIsBlocked`).
- Webhook events are acknowledged before they are queued, and every failed insert counts as a duplicate; an
  acknowledged event can be lost (`WebhookIntake.NeverLosesIff`).
- Freezing a wallet is documented to stop credits too. `credit` refuses closed wallets only
  (`EngineTheorems.FrozenWalletsTakeCredits`).
- A withdrawal is debited once but can be paid out three or four times. An attempt that has paid and then fails to
  write its result or to queue the notification is made again; so is one the provider answers with pending and
  pays later, because pending takes the failure branch; and so, once, is one whose process died
  (`SettlementPayouts.PaysAtMostIff`, `SettlementPayouts.PaysOnceIff`). A withdrawal can also end FAILED though it
  was paid, without any fault (`SettlementOutcomes.FailedMeansUnpaidIff`).
- The cached fee rule is said to take effect immediately after a change. It does unless a calculation that read
  the old rule sets the cache after the invalidation (`FeeCache.AlwaysAgreesIff`).
- Statements count an entry stamped exactly at the start of the period in the opening balance and again in the
  period (`Statements.StatementAddsUpIff`).
- The daily limit is checked before the transaction and reserves nothing, and it is summed by the currency a
  request names, which nothing compares with the wallet: the documented limit holds exactly for serial requests
  that name one currency (`DailyLimit.LimitHoldsIff`, `DailyLimit.TwoNamesPassTheLimit`).
- Line items do not always sum to the total fee: a negative fee can have a negative tax, which gets no line
  (`FeeEngine.LineItemsAddUpIff` says for which rules they do).

## Model

| member | source | states |
|---|---|---|
| Serializability.Serializable | src/modules/transfers/transfers.service.ts:90-160 | After any interleaving of statements, commits, rollbacks and single-statement writes, the tables are exactly those that the committed changes produce when replayed alone, one at a time, in commit order, and every one of them succeeds in that replay. |
| Serializability.CommitActsAlone | src/modules/wallets/wallets.service.ts:79-162 | What a commit makes visible equals the whole transaction executed alone at the moment of the commit, although its statements were spread over the schedule. |
| Serializability.PrefixFrame | src/modules/wallets/wallets.service.ts:85-88 | The work a transaction has done so far depends on the wallet rows it has locked and on nothing else in the tables. |
| Serializability.ReachableInv | src/modules/transfers/transfers.service.ts:90-160 | Every reachable engine state has exact locks, current private work, unused ids for uncommitted rows, a history that replays to the tables, and tables that satisfy the books, atomicity and conservation. |
| TransactionEngine.ProgramIsExecute | src/modules/transfers/transfers.service.ts:95-144 | The statement-by-statement program of each transaction, performed without interruption, fails with the same error or publishes the same tables as the one-shot transaction. |
| EngineTheorems.LedgerIsTruth | src/modules/wallets/wallets.service.ts:197-223 | In every reachable state each balance equals its wallet's signed ledger sum, 0 <= held <= balance, and every entry's balanceAfter is the sum of the prefix that ends with it. |
| EngineTheorems.EntriesFollowLockOrder | src/modules/wallets/wallets.service.ts:85-121 | While a transaction holds a wallet's row, no step but its own commit adds an entry of that wallet: ledger order per wallet is lock order. |
| EngineTheorems.MoneyIsConserved | src/modules/transfers/transfers.service.ts:88-137 | In every reachable state and for each wallet currency, the sum of balances is deposit credits less withdrawal debits less the fees of completed internal transfers, whatever was rolled back. |
| EngineTheorems.InternalTransfersAreAtomic | src/modules/transfers/transfers.service.ts:95-144 | A visible internal transfer is COMPLETED with exactly one debit of amount + fee on its source and one credit of amount on its destination; PROCESSING is never visible. |
| EngineTheorems.WithdrawalsAreDebitedOnce | src/modules/payments/payments.service.ts:170-200 | In every reachable state a withdrawal row has exactly one ledger entry, the debit of amount + fee. |
| EngineTheorems.UncommittedLeavesNothing | src/modules/transfers/transfers.service.ts:153-160 | A transfer or withdrawal that is still running or was rolled back has no row and no ledger entry. |
| EngineTheorems.RollbackChangesNothing | src/modules/transfers/transfers.service.ts:153-160 | Rolling back at any statement of any reachable state leaves tables and history as they were, frees every lock of the transaction, and leaves its transfer or withdrawal without row and entry. |
| EngineTheorems.ChecksHoldAtCommit | src/modules/transfers/transfers.service.ts:53-85 | What the services check without locks before they open their transaction still holds when it commits, whatever happened in between. |
| EngineTheorems.FrozenWalletsTakeCredits | src/modules/wallets/wallets.service.ts:140-145 | A credit succeeds, and raises the balance by its amount, if and only if the wallet is not closed; frozen wallets take it. |
| EngineTheorems.FrozenBalanceNeverFalls | src/modules/wallets/wallets.service.ts:92-94 | In every run, while a wallet stays frozen or closed its balance never falls, also not by a debit begun before. |
| LedgerOutcomes.DebitSucceedsIff | src/modules/wallets/wallets.service.ts:79-124 | In every store, a debit of the ledger goes through if and only if the amount is positive and at most balance - held of an Active wallet of the user's, and then leaves exactly balance - amount and its entry. |
| LedgerOutcomes.CreditSucceedsIff | src/modules/wallets/wallets.service.ts:129-162 | A credit of the ledger goes through if and only if the amount is positive and the wallet is not Closed, and then leaves exactly balance + amount and its entry. |
| LedgerOutcomes.TransferSucceedsIff | src/modules/transfers/transfers.service.ts:53-137 | Validation and transaction of an internal transfer succeed if and only if the rows allow it, said in their columns, and then leave exactly the two balances, two entries and the COMPLETED row. |
| LedgerOutcomes.WithdrawalSucceedsIff | src/modules/payments/payments.service.ts:148-200 | The same for a withdrawal, its debit of amount + fee and its PROCESSING row. |
| LedgerOutcomes.CreditingSucceedsIff | src/modules/payments/payments.service.ts:243-268 | A deposit's credit succeeds if and only if amount - fee is positive and the wallet exists and is not Closed, and then leaves exactly the new balance, its entry and COMPLETED. |
| LedgerOutcomes.CommitsAreAllowed | src/modules/transfers/transfers.service.ts:90-144 | In every schedule, whatever commits is allowed by the rows as they are at that moment, however they changed since it was validated, and leaves exactly the rows those columns prescribe. |
| LedgerOutcomes.AllowedRequestsCanCommit | src/modules/transfers/transfers.service.ts:90-151 | From every reachable state in which nothing runs, a request the rows allow can run to its commit and leaves exactly those rows. |
| LedgerOutcomes.WalletCreatedIff | src/modules/wallets/wallets.service.ts:46-63 | In the tables a wallet is created if and only if the user has none of the currency, as an Active wallet of that user and currency with balance and held zero. |
| LedgerOutcomes.SecondWalletIsRefused | src/modules/wallets/wallets.service.ts:47-50 | Once a user has got a wallet of a currency, a second one is refused. |
| LedgerOutcomes.OneWalletPerCurrency | src/modules/wallets/entities/wallet.entity.ts:34 | In every run no user has two wallets of one currency. |
| LedgerOutcomes.DepositInitiatedIff | src/modules/payments/payments.service.ts:68-115 | A deposit row is inserted if and only if the wallet exists, is the user's and in the currency named and the amount is positive, as PENDING with exactly these columns. |
| LedgerInvariants.PostKeepsBooks | src/modules/wallets/wallets.service.ts:96-121 | A posting keeps every balance equal to its ledger sum, every balanceAfter equal to its prefix, and 0 <= held <= balance. |
| LedgerInvariants.ExecuteKeepsAtomic | src/modules/payments/payments.service.ts:170-200 | A transaction leaves every transfer row, its own and all others, with exactly the entries its kind and status call for, and no entry without a row. |
| LedgerInvariants.ExecuteConserves | src/modules/payments/payments.service.ts:247-268 | Each money-moving transaction keeps the conservation equation of every currency. |
| LedgerInvariants.RowEventKeeps | src/modules/admin/admin.module.ts:176-188 | Wallet creation, wallet status changes, new deposit rows and status writes on deposits and withdrawals keep books, atomicity and conservation. |
| Deadlock.DeadlockIsTransferCycle | src/modules/transfers/transfers.service.ts:113-137 | If transactions are running and none can take its next statement or commit, the waits-for graph has a cycle made only of internal transfers, each holding its source wallet and waiting for its destination. |
| Deadlock.CyclesAreTransfers | src/modules/payments/payments.service.ts:187-198 | Every cycle of the waits-for graph consists of internal transfers between their two locks: withdrawals and deposit credits are in none. |
| Deadlock.TransferRowsAreNeverContended | src/modules/payments/payments.service.ts:248-266 | No transaction ever waits for a transfer row; two credits of one deposit already queue at its wallet. |
| Deadlock.AcyclicTransfersProgress | src/modules/transfers/transfers.service.ts:113-137 | If the source-to-destination graph of the running internal transfers has no cycle, some running transaction can go on. |
| Deadlock.CyclePersists | src/modules/transfers/transfers.service.ts:113-137 | Once a ring has formed, no step other than rolling back one of its members breaks it. |
| Deadlock.OpposingTransfersDeadlock | src/modules/transfers/transfers.service.ts:113-137 | Two opposite transfers that could both be debited have an interleaving in which each waits for the other. |
| Deadlock.FollowToCycle | src/modules/transfers/transfers.service.ts:113-137 | Following "waits for" in a finite set where everybody waits for a member reaches a cycle. |
| Services.WalletsService.CreateWallet | src/modules/wallets/wallets.service.ts:46-63 | Succeeds exactly when none of the user's wallets is in the currency asked for; the only change is then an Active wallet of that user and currency with balance and held zero. |
| Services.WalletsService.Debit | src/modules/wallets/wallets.service.ts:79-124 | Goes through exactly when the amount is positive and at most balance - held of an Active wallet of the caller's; leaves balance - amount and one debit entry that carries it, nothing else. Otherwise the error names a check that fails and nothing changes. It is also the ledger's posting, with the checks in the code's order. |
| Services.WalletsService.Credit | src/modules/wallets/wallets.service.ts:129-162 | Goes through exactly when the amount is positive and the wallet exists and is not Closed, whoever owns it; leaves balance + amount and one credit entry that carries it. Otherwise the error names a check that fails and nothing changes. |
| Services.WalletsService.ReconcileBalance | src/modules/wallets/wallets.service.ts:197-224 | Reports balance, ledger sum and whether they agree; on books that hold, which are those of every reachable state, they always agree. |
| Services.TransfersService.InternalTransfer | src/modules/transfers/transfers.service.ts:51-161 | Succeeds exactly when both wallets exist, differ and share a currency, the source is the caller's, Active and has amount + fee available, the destination is not Closed, amount and amount + fee are positive, and the tier's limit of 5,000,000 or 50,000,000 leaves room; then both balances, the two entries and the COMPLETED row are exactly as stated. Otherwise the tables are untouched. |
| Services.PaymentsService.InitiateDeposit | src/modules/payments/payments.service.ts:68-137 | Inserts one PENDING row with the columns given, and moves no money, exactly when the wallet exists, is the caller's and in the currency named, the amount is positive, the user exists and the fraud rules do not block; if the job cannot be queued the caller sees an error although the row is there. |
| Services.PaymentsService.InitiateWithdrawal | src/modules/payments/payments.service.ts:143-233 | Commits the PROCESSING row, the debit of amount + fee and its entry together, exactly when the user exists, is not blocked, owns the Active source and amount + fee is positive and available; else changes nothing. An enqueue that fails after the commit shows the caller an error although the debit stands. |
| Services.PaymentsService.CompleteDeposit | src/modules/payments/payments.service.ts:236-288 | Silent unless the row is PENDING; then credits amount - fee to the row's wallet, with entry, and writes COMPLETED, all together or not at all, and throws when it did not or when the notification was not queued. Also equals the settlement model's three steps taken without interruption. |
| Services.CompletionIsThreeSteps | src/modules/payments/payments.service.ts:236-288 | The check, transaction and notification steps of the interleaved model, taken together, are one call of the method. |
| Services.PaymentsProcessor.HandleDeposit | src/modules/payments/payments.processor.ts:44-97 | One attempt of a deposit job marks the row PROCESSING, or FAILED after a refused charge, and moves no money even when the charge succeeds; it throws exactly on a refused charge or a write that fails. Also equals its worker's steps in the interleaved model. |
| Services.PaymentsProcessor.HandleWithdrawal | src/modules/payments/payments.processor.ts:99-135 | One attempt writes COMPLETED when the provider succeeded at once and FAILED in every other case, pending included, and throws unless it succeeded, was stored and was notified. Also equals its worker's steps. |
| Services.PaymentsProcessor.OnFailed | src/modules/payments/payments.processor.ts:137-154 | The failure hook marks the transfer FAILED exactly from the third attempt on. |
| Services.WebhooksProcessor.ProcessEvent | src/modules/webhooks/webhooks.processor.ts:40-97 | A PROCESSING withdrawal reported successful becomes COMPLETED, a row that is neither COMPLETED nor FAILED and is reported failed becomes FAILED, and every other row and report leaves the tables alone: as written also a deposit's success. It throws exactly when such a write fails. Also equals its worker's steps. |
| SettlementTheorems.AsWrittenNothingIsEverCredited | src/modules/payments/payments.processor.ts:50-69 | As written, in every run: no deposit is COMPLETED or has an entry, the ledger is empty and every balance is zero. |
| SettlementPolicies.ExactlyOnceIff | src/modules/payments/payments.service.ts:240-268 | In every run each deposit has one credit of amount - fee if it is COMPLETED and none otherwise, if and only if admitting PROCESSING comes with a check under the lock and with COMPLETED rows never being reopened; whatever may fail makes no difference. |
| SettlementPolicies.DepositsCompleteIff | src/modules/webhooks/webhooks.processor.ts:69-75 | Some run, even one without faults, completes and credits a deposit if and only if the guard admits PROCESSING. |
| SettlementTheorems.RunKeepsBooks | src/modules/webhooks/webhooks.processor.ts:63-89 | Under every policy every run keeps books, atomicity and conservation, and keeps workers on transfers of their own kind. |
| SettlementTheorems.WithdrawalDebitedOnce | src/modules/payments/payments.processor.ts:99-154 | Over any attempts, webhooks and hooks a withdrawal has exactly the one debit of its initiating transaction; FAILED reverses nothing. |
| SettlementTheorems.OnlyCreditsMoveMoney | src/modules/webhooks/webhooks.processor.ts:69-89 | In any reachable state a worker step changes balances or ledger only at a deposit's credit. |
| SettlementTheorems.StepSparesOthers | src/modules/payments/payments.processor.ts:44-154 | A worker step leaves the row and the entries of every other transfer alone. |
| SettlementPayouts.PayoutsWithinBound | src/modules/payments/payments.processor.ts:99-154 | In every run the provider pays a withdrawal out, at once or later, at most once if nothing goes wrong, at most three times if an attempt that pays can count as failed, and once more if a worker can die. |
| SettlementPayouts.ThreePayoutsHappen | src/modules/payments/payments.processor.ts:107-134 | From every withdrawal job about to start three payouts are reachable as soon as writes or notifications can fail or pending answers are paid later. |
| SettlementPayouts.BoundIsReached | src/modules/payments/payments.processor.ts:99-134 | Wherever deposits can complete, some run pays one withdrawal out exactly as often as the bound allows, for its one debit. |
| SettlementPayouts.PaysAtMostIff | src/modules/payments/payments.processor.ts:99-154 | A number bounds the payouts of every withdrawal in every run if and only if it is at least that bound, or the guard lets no deposit complete so that there is nothing to withdraw. |
| SettlementPayouts.PaysOnceIff | src/modules/payments/payments.processor.ts:99-134 | One debit means at most one payout in every run if and only if no worker's write and no notification can fail, no pending answer is paid later and no worker dies (or there is nothing to withdraw). |
| SettlementOutcomes.FailedMeansUnpaidIff | src/modules/webhooks/webhooks.processor.ts:63-82 | Once its job is over a FAILED withdrawal is an unpaid one, in every run, if and only if COMPLETED rows are never overwritten, no worker's write fails, no pending answer is paid later and no worker dies (or there is nothing to withdraw). |
| SettlementOutcomes.LateWebhookOverwrites | src/modules/webhooks/webhooks.processor.ts:63-82 | Without any fault: a webhook reads PROCESSING, the job pays and writes COMPLETED, and the webhook writes FAILED over it. |
| SettlementCauses.WebhookDecides | src/modules/webhooks/webhooks.processor.ts:63-89 | Under every policy, what one uninterrupted webhook does to the row it reports on: COMPLETED for a PROCESSING withdrawal reported successful, the credit for a PROCESSING deposit where the guard admits it, FAILED for a row not final and reported failed, and otherwise nothing. |
| SettlementCauses.CompletionDecides | src/modules/payments/payments.service.ts:236-288 | Under every policy completeDeposit, uninterrupted, credits amount - fee and completes the row if and only if the guard admits its status, the write is stored and the wallet can take it. |
| SettlementCauses.AnswerDecides | src/modules/payments/payments.processor.ts:58-94 | Under every policy, what the provider's answer does to a deposit that is PROCESSING. |
| SettlementCauses.CompletedHasACause | src/modules/webhooks/webhooks.processor.ts:69-82 | In every run a deposit or withdrawal is COMPLETED only after the provider answered an attempt at it with success or a webhook reported success on it. |
| SettlementCauses.FailedHasACause | src/modules/payments/payments.processor.ts:137-154 | In every run it is FAILED only after a refused charge, a disbursement that did not succeed at once, a third attempt that threw, or a webhook that reported failure. |
| SettlementCauses.CompletedIsPaidOrReported | src/modules/payments/payments.processor.ts:107-127 | In every run a COMPLETED withdrawal was paid out, or a webhook reported success on it. |
| SettlementCauses.AttemptsAreBounded | src/modules/payments/payments.service.ts:118-126 | In every run a payment job makes at most three attempts and a webhook job at most five. |
| SettlementCauses.ThrownAttempts | src/modules/payments/payments.processor.ts:137-154 | An attempt that threw is made again until the attempts are used up; only then, and only for payment jobs, the transfer is marked FAILED. |
| SettlementRefinement.StatementsRefineSettlement | src/modules/payments/payments.service.ts:243-283 | Every run in which credit transactions take their statements one by one, waiting for locks and interleaved with all other transactions, is step by step a run of the settlement model under the same policy and faults; a policy's check under the lock is made by the UPDATE that completes the row. |
| SettlementRefinement.NothingCreditedStatementByStatement | src/modules/payments/payments.processor.ts:50-69 | As written, also statement by statement: the ledger stays empty and every balance zero. |
| SettlementRefinement.ExactlyOnceStatementByStatement | src/modules/payments/payments.service.ts:240-268 | Under the policies that protect the credit, also statement by statement: each deposit has one credit of amount - fee if it is COMPLETED and none otherwise. |
| SettlementRefinement.PayoutsStatementByStatement | src/modules/payments/payments.processor.ts:99-134 | Also statement by statement no withdrawal is paid out more often than the bound for what may go wrong. |
| SettlementRealised.SettlementIsRealised | src/modules/payments/payments.service.ts:243-283 | Conversely every run of the settlement model can be taken statement by statement, under the same policy and faults. |
| SettlementRealised.SameStatesReachable | src/modules/payments/payments.service.ts:243-283 | So with credits as one step or statement by statement exactly the same tables, workers and payouts are reachable. |
| SettlementRealised.ExactlyOnceByStatementsIff | src/modules/payments/payments.service.ts:240-268 | The exact condition for crediting each deposit once holds statement by statement, in both directions. |
| SettlementRealised.PaysAtMostByStatementsIff | src/modules/payments/payments.processor.ts:99-134 | So does the exact bound on the payouts of one withdrawal. |
| WebhookIntake.OneJobPerEvent | src/modules/webhooks/webhooks.controller.ts:117-156 | However redeliveries interleave and whatever fails, an event id is queued at most once, for the event whose delivery saved it. |
| WebhookIntake.NeverLosesIff | src/modules/webhooks/webhooks.controller.ts:122-156 | Every acknowledged delivery's own event is queued or about to be, in every run, if and only if inserts fail only as duplicates, the queue never refuses a saved event, and no two different events, of one provider or of two, come under one id. |
| WebhookIntake.StrandedForGood | src/modules/webhooks/webhooks.controller.ts:118-125 | An event saved but not queued is never queued by any later redelivery. |
| WebhookIntake.WebhooksController.ProcessWebhookEvent | src/modules/webhooks/webhooks.controller.ts:111-163 | One uninterrupted delivery, as code, is its three steps: a new event is saved and queued, a known one or a failed insert is only acknowledged, and the caller sees an error exactly when a saved event could not be queued. |
| Idempotency.ExecutesOncePerDay | src/common/interceptors/idempotency.interceptor.ts:60-127 | Over every interleaving of requests, crashes and cleanups, two executions under one user and key stem from records created more than 25 hours apart. |
| Idempotency.OncePerRecord | src/modules/transfers/entities/idempotency-record.entity.ts:10-12 | While a key's record exists at most one execution belongs to it; an earlier one belongs to an older record. |
| IdempotentTransfers.OneRowPerKey | src/common/interceptors/idempotency.interceptor.ts:82-127 | With the protocol in front of the transaction engine, over any interleaving of requests, crashes, cleanups and statements: every committed transfer, withdrawal or deposit row was made under a key's record, and two rows of one key under records more than 25 hours apart. |
| IdempotentTransfers.FreshKeyMakesItsRow | src/common/interceptors/idempotency.interceptor.ts:82-101 | And the protocol stands in nobody's way: from every state a request with a long key that has no record gets to make any row the database lets it make, under a record of that moment. |
| Idempotency.ReplaysAreExact | src/common/interceptors/idempotency.interceptor.ts:61-80 | A replayed answer is a response some execution of the same key and endpoint produced. |
| Idempotency.RepeatsGetTheAnswer | src/common/interceptors/idempotency.interceptor.ts:61-80 | In every run, once a request has been answered with its handler's outcome and until its record is swept, every later request left alone with the key gets that very response on the same endpoint and a conflict on another, and executes nothing. |
| Idempotency.RepeatsGetTheAnswerFor25Hours | src/common/interceptors/idempotency.interceptor.ts:61-80 | That is every repeat within 25 hours of the first request, and after a failure every repeat for ever. |
| Idempotency.FailedKeysNeverRunAgain | src/common/interceptors/idempotency.interceptor.ts:114-126 | Once a key's record is failed, no continuation of the run executes it again or changes the record. |
| Idempotency.CrashedKeysStayInFlight | src/common/interceptors/idempotency.interceptor.ts:82-113 | A process that dies between insert and update leaves its key in flight for ever; nothing executes under it again. |
| Idempotency.SoloRequest | src/common/interceptors/idempotency.interceptor.ts:52-127 | In every state the protocol can be in, a request left alone answers by its key's length and record alone: bad request, fresh with the outcome stored, replay of a finished record of its endpoint, or conflict. |
| Idempotency.IdempotencyInterceptor.Intercept | src/common/interceptors/idempotency.interceptor.ts:32-128 | BadRequest exactly for keys shorter than 16; the stored response is replayed exactly when a finished record of the key is on the same endpoint; with any other record it is a conflict; without a record the handler runs and its outcome is stored. Also equals the protocol's steps taken alone. |
| Idempotency.IdempotencyInterceptor.CleanupIdempotencyRecords | src/modules/queue/queue.module.ts:52-60 | Deletes exactly the completed records created more than 25 hours ago. |
| DailyLimit.DailyTotalBound | src/modules/transfers/transfers.service.ts:197-228 | With at most n requests of a user and named currency open between check and commit, the internal transfers that name the currency and are stamped with any one day never exceed n limits, over any run across midnights; CheckPassesIff says exactly what the check lets through. |
| DailyLimit.DailyTotalIsSum | src/modules/transfers/transfers.service.ts:206-217 | What the check reads is the sum over exactly the counted rows of the user, the named currency and the day. |
| DailyLimit.CheckPassesIff | src/modules/transfers/transfers.service.ts:203-221 | A request passes the check if and only if what it names is allowed, its amount is positive and fits with that sum into 5,000,000 for the first tier or 50,000,000 for the second, without limit for the third, never for the unverified, and fewer than n such requests are open. |
| DailyLimit.OtherRowsDoNotMatter | src/modules/transfers/transfers.service.ts:206-217 | Rows of another user, name or day, and rows that do not count, change nobody's check. |
| DailyLimit.LimitIsWholeAfterMidnight | src/modules/transfers/transfers.service.ts:203-204 | In every run with nothing open, after midnight a verified user can send any positive amount up to the limit, whatever was sent before. |
| DailyLimit.WalletTotalBound | src/modules/transfers/transfers.service.ts:65-85 | What leaves a user's wallets of one currency on one day is at most n limits for every currency name in use, since nothing compares the name with the wallet. |
| DailyLimit.WalletTotalBoundIsReached | src/modules/transfers/transfers.service.ts:79 | The bound on what leaves the wallets is exact too, for every n, every set of names and every day, after as much on every earlier day. |
| DailyLimit.TwoNamesPassTheLimit | src/modules/transfers/transfers.service.ts:210-216 | Without any concurrency a first-tier user who names two currencies moves twice the limit out of one NGN wallet on one day. |
| DailyLimit.SerialRequestsMeetTheLimit | src/modules/transfers/transfers.service.ts:79 | Serial requests keep the limit for every currency they name, and for the wallets' own currency if that is what they name. |
| DailyLimit.DailyTotalBoundIsReached | src/modules/transfers/transfers.service.ts:197-228 | The bound by named currency is exact: for every n and every day some run totals n full limits on that day and on every day before it. |
| DailyLimit.LimitHoldsIff | src/modules/transfers/transfers.service.ts:27-32 | The documented limit on what leaves the wallets holds on every day of every run if and only if the user may not transfer at all, or names times concurrent requests is at most one: serial requests under one name. |
| Velocity.CountIsBurstLength | src/modules/fraud/fraud.service.ts:118-126 | The refreshed counter is exactly the number of evaluations since the last pause of a whole window. |
| Velocity.CountIsWindowCountIff | src/modules/fraud/fraud.service.ts:118-126 | At one evaluation the counter is the rolling window's count if and only if the current burst began less than a window ago. |
| Velocity.CountsWindowsIff | src/modules/fraud/fraud.service.ts:118-126 | Over a whole run every count is its rolling window's count if and only if no burst outlasts a window. |
| Velocity.CountCoversWindow | src/modules/fraud/fraud.service.ts:118-126 | The counter is at least the number of evaluations in any rolling window that ends now. |
| Velocity.AtMostMaxCountPass | src/modules/fraud/fraud.service.ts:113-145 | At most maxCount evaluations pass in any interval shorter than the window. |
| Velocity.TriggersIff | src/modules/fraud/fraud.service.ts:113-176 | When a rule triggers, in the counter's, database's and rule's columns: velocity past maxCount, the day's total with the amount past the daily limit. |
| Velocity.SlotIsCounter | src/modules/fraud/fraud.service.ts:119-125 | Whoever else is evaluated under whatever rules, a rule's cache slot is the counter of the user's own evaluations in the currency. |
| Velocity.TriggersIsNotPasses | src/modules/fraud/fraud.service.ts:113-145 | At each evaluation of the run the rule triggers if and only if the burst count of the user's own evaluations is past its maximum. |
| Velocity.AtMostMaxCountLetThrough | src/modules/fraud/fraud.service.ts:48-89 | While the cache is up, a BLOCK velocity rule leaves at most maxCount evaluations of one user and currency unblocked in any interval shorter than its window, whatever other rules and users there are. |
| Velocity.AlertsOfAppend | src/modules/fraud/fraud.service.ts:52-73 | Alerts of a list of rules are those of its parts, in order. |
| Velocity.SteadyTrafficIsBlocked | src/modules/fraud/fraud.service.ts:118-126 | Traffic with every gap just under the window is blocked from evaluation maxCount on, although no window holds more than two. |
| Velocity.EarlierRulesDoNotMatter | src/modules/fraud/fraud.service.ts:119 | A rule's verdict and counter do not depend on the rules evaluated before it. |
| Velocity.FraudService.CheckVelocity | src/modules/fraud/fraud.service.ts:113-145 | Triggers exactly when this evaluation makes more than maxCount on the live counter, or on the database count while the cache is down; leaves exactly that one counter refreshed with a new time to live. |
| Velocity.FraudService.Evaluate | src/modules/fraud/fraud.service.ts:48-89 | Every rule is counted and every triggered rule's alert is saved, in order; the transaction is blocked exactly when some BLOCK rule triggers on the counters as they were. Each call continues the run of evaluations that AtMostMaxCountLetThrough is about. |
| Lockout.LockoutPace | src/modules/auth/auth.service.ts:60-91 | With no successful login or activation in between, n >= 5 counted failures span at least (n - 5) times 30 minutes. |
| Lockout.FailuresArePaced | src/modules/auth/auth.service.ts:165-176 | The row counts exactly the failures not refused by the lock, and from the fifth on consecutive failures are at least a lock apart. |
| Lockout.PatientIsCounted | src/modules/auth/auth.service.ts:165-176 | The pace is attained for every n by waiting for each expiry. |
| Lockout.AuthService.RecordFailedAttempt | src/modules/auth/auth.service.ts:165-177 | One more failure, and from the fifth on a new lock of 30 minutes. |
| Lockout.AuthService.LoginAttempt | src/modules/auth/auth.service.ts:56-98 | A live lock refuses and changes nothing; a wrong password counts, and from the fifth locks for 30 minutes; a valid one clears counter and lock, and only then a suspended account is refused. An unknown address is refused like a wrong password and leaves no trace. These are the steps of the lockout runs. |
| Lockout.AuthService.ActivateUser | src/modules/admin/admin.module.ts:129-143 | Activation forgets every failure and the lock and lifts a suspension. |
| FeeEngine.Calculate | src/modules/fees/fees.service.ts:36-89 | Nothing without a rule or outside its range; otherwise the flat amount, the percentage rounded to the nearest unit, or the fee of the first tier the amount is within; unchanged between floor and cap, else moved to the nearer one, the cap winning; the tax rounded to the nearest unit; the total their sum, and the lines base fee and positive tax. |
| FeeEngine.ChargeIsPriced | src/modules/fees/fees.service.ts:46-124 | The fee the other results are about is the one Calculate's contract describes, for every rule and amount. |
| FeeEngine.PriceIsUnique | src/modules/fees/fees.service.ts:91-124 | And that description fixes the base fee. |
| FeeEngine.TierLookupIgnoresOrder | src/modules/fees/fees.service.ts:100-119 | When tiers partition the non-negative amounts the lookup finds the only matching tier, in every order of the tiers, and never falls back. |
| FeeEngine.BandsPartition | src/modules/fees/fees.service.ts:183-187 | Contiguous bands from zero partition the non-negative amounts. |
| FeeEngine.TotalFeeMonotone | src/modules/fees/fees.service.ts:46-68 | If the percentage is not negative, or the tiers partition the non-negative amounts and fees rise with the tiers' starts in whatever order they are listed, then within the rule's range a larger amount never costs a smaller total after floor, cap, rounding and tax. |
| FeeEngine.BaseFeeRisesIff | src/modules/fees/fees.service.ts:91-119 | Where tiers partition the non-negative amounts, the base fee never falls as the amount grows if and only if the percentage is not negative, or fees rise with the tiers' starts. |
| FeeEngine.SplittingChangesLittle | src/modules/fees/fees.service.ts:96-98 | Splitting an amount into n parts changes the summed percentage fee by at most (n + 1) / 2 units. |
| FeeEngine.TotalFeeNearExact | src/modules/fees/fees.service.ts:54-68 | The total fee is within (1 + tax rate) / 2 + 1/2 of the exact fractional value. |
| FeeEngine.LineItemsAddUpIff | src/modules/fees/fees.service.ts:67-73 | Over all amounts a rule applies to, the line items sum to the total fee if and only if the rule's columns keep the tax up: no tax rate, or a lowest clamped fee (flat, at the cheapest amount of a percentage, its floor, or at the finitely many amounts where the tier changes) whose tax does not round below zero. |
| FeeEngine.PlainPercentageAddsUpIff | src/modules/fees/fees.service.ts:67-73 | For a taxed percentage without floor, cap and limits the line items always add up if and only if the percentage is not negative. |
| FeeEngine.NonNegativeRulesAddUp | src/modules/fees/fees.service.ts:54-73 | Under a rule without negative amounts, fee and tax of a non-negative amount are not negative and the line items always sum to the total. |
| FeeEngine.LineItemsCanMissTheTotal | src/modules/fees/fees.service.ts:67-73 | A percentage of -0.5 with 7.5% tax on 1000 is a total of -537 with lines of -500. |
| FeeEngine.SeededRuleIsProgressive | src/modules/fees/fees.service.ts:175-190 | The seeded NGN transfer rule partitions the amounts, is monotone, adds up, and charges 1075, 2688 or 5375 in total. |
| FeeCache.FeesService.GetActiveRule | src/modules/fees/fees.service.ts:138-153 | Serves a fresh entry untouched, else what the query finds, cached for five minutes; either way a current active rule of maximal priority, or none when there is none. |
| FeeCache.FeesService.InvalidateFeeCache | src/modules/fees/fees.service.ts:159-166 | Drops exactly the entry of the currency and transaction type given, and nothing when one of them is missing or empty. |
| FeeCache.FeesService.CreateFeeRule | src/modules/admin/admin.module.ts:214-226 | After an insert exactly the entry of its key is gone and every cached rule is still a current best rule of its key. |
| FeeCache.FeesService.UpdateFeeRule | src/modules/admin/admin.module.ts:233-247 | The same after an update. |
| FeeCache.FeesService.SeedRule | src/modules/fees/fees.service.ts:217-223 | Seeding, which invalidates nothing, keeps the cache in agreement if and only if the new rule does not outrank a cached one of its key. |
| FeeCache.StalenessIsBounded | src/modules/fees/fees.service.ts:138-153 | With misses, reads, sets, changes and invalidations interleaved, a served rule was the best of its key within the last TTL plus the longest read-to-set delay. |
| FeeCache.AlwaysAgreesIff | src/modules/fees/fees.service.ts:138-166 | Interleaved, every rule the cache would serve is a current best rule in every run if and only if no row of a key is saved while a reader of that key is pending or a live entry of that key is cached. |
| FeeCache.StaleRuleCanBeServed | src/modules/fees/fees.service.ts:143-150 | Wherever rows may be saved while a reader is pending, a reader that read before a change and sets after its invalidation makes the cache serve a rule that is no longer in the table. |
| FeeCache.CachedRuleIsReplaced | src/modules/admin/admin.module.ts:238-240 | Wherever rows may be saved while one is cached, the cache serves the old rule between the change and its invalidation. |
| Statements.StatementsChain | src/modules/reports/reports.service.ts:54-68 | With distinct timestamps the closing balance of [a, b] is the opening balance of any period that starts at b. |
| Statements.StatementIs | src/modules/reports/reports.service.ts:46-90 | A statement lists exactly the lines stamped within the period, both ends included, in order; opens with the balance of the latest line at or before its start; closes with its last line's; and totals the credits and the debits in it. |
| Statements.StatementGap | src/modules/reports/reports.service.ts:54-76 | With timestamps in ledger order, opening + credits - debits exceeds closing by exactly the signed amount stamped at the start of the period. |
| Statements.StatementsAreRightIff | src/modules/reports/reports.service.ts:54-76 | With distinct timestamps this holds for every period if and only if the entries, in the order of their timestamps, carry on from each other's balances. |
| Statements.StatementAddsUpIff | src/modules/reports/reports.service.ts:54-76 | With timestamps in ledger order a statement adds up if and only if no entry is stamped exactly at the start of its period. |
| Statements.ReachableStatementLines | src/modules/reports/reports.service.ts:61-64 | The entries of a wallet in any store whose books hold are chained and end at the wallet's balance, which is what statements rest on. |
| Statements.GetUserSummary | src/modules/reports/reports.service.ts:95-135 | The groups are exactly those that occur, each with its own count, volume and fees as sums over its rows, and they add up to the totals, which are sums over all rows. |
| ExchangeRates.NoGainThereAndBack | src/modules/exchange-rates/exchange-rates.service.ts:94-96 | For every pair, any amount from zero up and any two rates the system can hold, converting there and back never returns more than the start. |
| ExchangeRates.NeverGainsIff | src/modules/exchange-rates/exchange-rates.service.ts:94-96 | Over all amounts, negative ones included: no pair and no rates ever gain if and only if the amount is at least -19. |
| ExchangeRates.NegativeAmountsComeBackLarger | src/modules/exchange-rates/exchange-rates.service.ts:94-96 | -1000 USD to EUR and back is more than -1000 USD. |
| ExchangeRates.TriangleGains | src/modules/exchange-rates/exchange-rates.service.ts:26-41 | NGN to GHS to USD to NGN gains on every amount from 1000 up, whatever the jitter. |
| ExchangeRates.TriangleNeverGainsIff | src/modules/exchange-rates/exchange-rates.service.ts:26-41 | A round over three listed pairs never gains, on any amount from zero up and at any rates the system can hold, if and only if the round's highest rates less the three spreads multiply to at most one. |
| ExchangeRates.LegLosesLessThanOne | src/modules/exchange-rates/exchange-rates.service.ts:96 | One leg loses less than one unit to rounding. |
| ExchangeRates.LegIsMonotone | src/modules/exchange-rates/exchange-rates.service.ts:94-96 | A larger amount never converts to less. |
| ExchangeRates.JitterStaysInRange | src/modules/exchange-rates/exchange-rates.service.ts:133-141 | A drawn rate, and the same rate rounded to the column's eight decimals, stays within half a percent of the base rate. |
| ExchangeRates.LatestRowIsNewest | src/modules/exchange-rates/exchange-rates.service.ts:69-76 | The query finds the newest row of the pair that has not expired, and nothing only when there is none. |
| ExchangeRates.ExchangeRatesService.UpsertMockRate | src/modules/exchange-rates/exchange-rates.service.ts:119-150 | Fails exactly for unlisted pairs; otherwise saves the base rate with the jitter drawn and a spread of 0.02, for five minutes, and caches it for one. |
| ExchangeRates.ExchangeRatesService.GetRate | src/modules/exchange-rates/exchange-rates.service.ts:48-85 | A rate of one without spread within one currency; otherwise cache, then newest live row, then a new rate, and what is served is plausible for its pair and expired less than a minute ago, if at all. |
| ExchangeRates.ExchangeRatesService.Convert | src/modules/exchange-rates/exchange-rates.service.ts:87-109 | The amount itself within one currency, else the whole units at a plausible rate less two percent; fails exactly for unlisted pairs. |
| ExchangeRates.ExchangeRatesService.RefreshMockRates | src/modules/exchange-rates/exchange-rates.service.ts:111-117 | Afterwards every listed pair is cached for a minute. |
| ExchangeRates.ThereAndBack | src/modules/exchange-rates/exchange-rates.service.ts:87-109 | Two conversions through the service, at any times and with any jitter, never return more than the start. |

## Left out

- PostgreSQL, Redis and Bull themselves: row locks, unique indexes, atomic commit, one job per enqueue and bounded attempts are assumed to work as documented. PostgreSQL's own deadlock detection is a rollback in the model.
- Driver representation of BIGINT columns (strings in some drivers) and floating-point error: amounts are integers and rates exact fractions.
- Columns without influence on money or status: attempts, provider references and responses, narration, metadata, failure reasons, completedAt, labels, and the status of webhook event rows.
- Notifications and audit logging: kept only as the possibility that queueing one after a commit fails and the caller sees an error.
- HTTP, guards, DTO validation, token and signature checks, password hashing, health checks and module wiring.
- Provider latency and randomness: success, pending and failed answers come in any order.
- Users, KYC review and tier changes: user existence and tier are inputs; tiers are fixed during a run of the daily limit.
- Reading endpoints: wallet and transfer listings, pagination, current rates, the platform summary.
- z-score and large-average fraud rules: their verdicts over SQL aggregates are inputs of the evaluation, as is the daily total of the daily-limit rule.
- Fraud checks on internal transfers: the repository's README lists them, but the transfer service calls none.
- The currency named in a transfer request: it is stored but never compared with the wallets, so conservation is stated by wallet currency.
- Wallet status changes are more general than the one endpoint: any status can be set at any time.
- Settlement.Crash: a job whose process dies twice is failed by the queue, whose default allows one rerun; that second crash is not a step.
- Settlement.WorkerStep: a database read or a provider call that throws is not a step of its own; the first changes nothing and the second does not happen with the providers of the repository.
- Idempotency.SoloRequest: the response and the storing of the outcome are one step, while the code may answer before its update of the record is done; a repeat in between meets the in-flight record.
- Idempotency.IdempotencyInterceptor.Intercept: requests without the key header or to handlers not marked idempotent, and the mark a replayed body carries.
- DailyLimit.DailyTotalBound: deposits and withdrawals enter with any amount and status, stamped today or earlier.
- Velocity.AtMostMaxCountLetThrough: evaluations are serial and the cache is up, because the code's get and set are two steps and its fallback counts transfers instead of evaluations.
- Lockout.LockoutPace: logins are serial, because two concurrent failures can read the same counter.
- FeeCache.FeesService.CreateFeeRule: a rule names a currency and a transaction type, because requests are validated to (src/modules/admin/dto/admin.dto.ts:47-57).
- FeeCache.FeesService.UpdateFeeRule: an update keeps currency and transaction type, because the request type has no such fields.
- FeeCache.StalenessIsBounded: the delay between a miss's read and its write of the cache is a parameter, because the code sets no bound on it.
- Statements.StatementsChain: timestamps are distinct; which of two equal ones comes first is left to the database.
- Statements.StatementGap: timestamps follow ledger order, which the code does not enforce. A createdAt is the start of its transaction, so a posting that waited for the wallet's lock can be stamped before one that was made earlier. StatementsAreRightIff has every order.
- ExchangeRates.NoGainThereAndBack: starts from zero up, because the property fails for amounts below -19 (NeverGainsIff has all amounts).
- WebhookIntake.NeverLosesIff: a payload without an event id, for which the controller invents one or looks up nothing, is not modelled.
