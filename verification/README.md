# Online banking backend: a verified model of its money core

The project models the parts of the banking backend whose correctness rests on ordering: money
movements under row locks, one-time codes, scheduled payments, refresh tokens, rate limits, and the
arithmetic of conversions and card numbers. Amounts are integer cents, rates are integers in units of
10^-8, times are integers in seconds (reals in the rate limiters), and ids stand for UUIDs.

## How it is built

| file | content |
|---|---|
| `Basics.dfy` | optional values; sums over finite maps |
| `Schema.dfy` | the rows of the money tables and their columns |
| `Operations.dfy` | the decision of each money operation on a set of rows, and the rows it writes |
| `Laws.dfy`, `Invariants.dfy` | folds over the ledger, the invariant of the committed rows, and that every atomic step keeps it |
| `Conservation.dfy`, `Totals.dfy` | balances per currency against recorded inflows; the totals shown to customers |
| `Runs.dfy` | runs of atomic steps, late FAILED writers included |
| `Reversals.dfy` | reversals as inverses, chains of reversals, no cycles |
| `Guards.dfy`, `Effects.dfy` | when each money operation goes ahead, is refused and how, or is aborted; every row it writes |
| `Answers.dfy` | what every call on transfers answers and changes, told by the history of calls and by the rows |
| `Interleaving.dfy`, `Refinement.dfy`, `Deadlock.dfy`, `Race.dfy`, `Unrefreshed.dfy` | sessions with stale caches and row locks; refinement to atomic steps; freedom from deadlock; the race of the late FAILED writer; what goes wrong without the refresh of locked reads |
| `Transfers.dfy` | the service calls one after the other: initiate, resend, confirm, sweep, one-time codes |
| `Schedules.dfy` | scheduled payments, sweeps, and histories of sweeps |
| `Witnesses.dfy` | concrete runs from the empty system that reach what the code does not promise |
| `Services.dfy`, `CardService.dfy`, `BackgroundTasks.dfy` | the services and tasks in imperative form: sessions, objects changed in place, loops |
| `RefreshTokens.dfy`, `AuthService.dfy` | refresh-token rotation, its properties and its imperative form |
| `RateLimiter.dfy` | both limiters against the full history of hits |
| `Conversion.dfy`, `Luhn.dfy` | currency conversion and card check digits |

There are three layers. A decision (`Operations.Decide`) is a function from rows to the rows to be
written, or to an error. The serial layer applies it to the committed rows in one step. The
interleaved layer lets sessions read without locks into caches that may be arbitrarily stale, take row
locks one at a time, refresh, decide on their caches, and publish at commit. The imperative layer runs
each service as methods on objects of an identity map, and proves that whatever stale objects the map
holds at the start, the database changes exactly as the decision on its current rows says.

## Where the code and its documentation differ

- `backend/app/modules/transactions/service.py:230-231` says that a failed confirmation never leaves a
  transfer PENDING. It does when the checks pass but the credit rounds to 0.00 or overflows its column;
  `Transfers.LeftPendingExactly` gives the condition, `Transfers.StillPendingExactly` that of the whole
  call, and `Witnesses.OneCentStaysPending` an input.
- `backend/app/modules/transactions/service.py:344-345` says that an outcome reached by a concurrent
  request is preserved. The writers of FAILED take no lock and act on an earlier read, so one can land
  on a transfer that has been executed (`Refinement.StaleFailureLands`; `Race.RaceIsPossible` gives the
  interleaving, `Witnesses.RaceHappens` an input). FAILED means "no money moved" in serial
  runs, and a late FAILED keeps that meaning exactly when it lands on PENDING or FAILED
  (`Runs.LateFailExactly`; over runs and interleavings `Runs.FailedMeansUnmovedExactly` and
  `Refinement.EveryPlayFailsExactly`). Money still moves at most once (`Refinement.EveryPlayMovesOnce`).
- A reversal moves the original amount on both sides, so it is an inverse exactly when the converted
  amount equals the amount (`Reversals.ReverseRestores`; `Witnesses.ReversalTakesTooMuch` is an input).
- `backend/app/background_tasks/tasks.py:237-240` says that one failing schedule never blocks the
  others. This holds for domain errors (`Schedules.FailureIsInvisible`). A payment that the database
  rejects, such as one that converts to 0.00, or one validated on stale accounts, ends the sweep and stays due
  (`Schedules.BrokenStopsSweep`, `Witnesses.OneCentBreaksSweep`); `Schedules.AttemptBreaksExactly` and
  `Schedules.SweepBreaksExactly` say when.
- `backend/app/core/rate_limiter.py:11-14` says that the limiter fails open when Redis has a hiccup. A
  window whose first hit meets one on the way to EXPIRE (INCR not answered, or EXPIRE lost) gets no end,
  and its key is refused for ever once its limit is reached (`RateLimiter.LockedOutForEver`); it recovers
  exactly when it was given an end (`RateLimiter.RecoversExactly`).

Two more results are not promised either way: the fixed window lets up to twice its limit through in an
interval of its length (`RateLimiter.AtMostTwiceLimit`, `RateLimiter.TwiceLimitIsReached`), and a crash
between the two commits of a scheduled payment makes the customer pay twice
(`Schedules.CrashLosesRecord`, `Witnesses.CrashPaysTwice`).

## Model

| member | source | states |
|---|---|---|
| Invariants.StepKeepsInv | backend/app/modules/transactions/service.py:347-420 | Every atomic step (money operations, late FAILED writers, administrators' changes, initiations) keeps the invariant: ledger chained and replaying to every balance, version equal to the number of entries, no negative balance, entries of each transaction as its status says, reversals mirroring settled originals one to one |
| Laws.ChainOfAccount | backend/app/modules/ledger_entries/models.py:28-56 | In a chained ledger each entry of an account starts from the balance that the account's earlier entries leave, and ends that balance plus or minus its amount |
| Invariants.PostedAccount | backend/app/modules/transactions/service.py:384-390 | A posting changes each account by its debit or credit, counts one version step per entry, and keeps balances between zero and the column limit by the guards alone |
| Invariants.CommitPosts | backend/app/modules/transactions/service.py:411-416 | Every call that goes ahead is the posting of one transaction row: a PENDING transfer, or a new row of the right shape |
| Guards.OutcomeExactly | backend/app/modules/transactions/service.py:371-376 | For all five money operations: a call goes ahead exactly when it starts from the right status, its accounts are active and in the right currency, the debited balance covers it, and the tables take its rows; the database aborts it exactly when only the last fails; otherwise it is refused with a domain error |
| Guards.RefusesFirst | backend/app/modules/transactions/service.py:371-376 | A refused money operation answers with the refusal of the first check, in a list for each of the five, that does not hold; when all hold it is not refused |
| Effects.DepositDoes | backend/app/modules/transactions/service.py:608-636 | A deposit that goes ahead changes one account by the amount and one version step, adds one SUCCESS row of type DEPOSIT and one CREDIT entry, each column given, and changes nothing else |
| Effects.WithdrawDoes | backend/app/modules/transactions/service.py:669-697 | The same for a withdrawal: one debit, one SUCCESS row of type WITHDRAWAL, one DEBIT entry |
| Effects.PayByCardDoes | backend/app/modules/cards/service.py:97-125 | The same for a card payment, whose row names the card |
| Effects.ConfirmDoes | backend/app/modules/transactions/service.py:378-416 | A confirmation that goes ahead debits the amount and credits the converted amount, adds both entries in the currencies of the accounts, makes the row SUCCESS, and changes nothing else |
| Effects.ReverseAdds | backend/app/modules/transactions/service.py:743-821 | A reversal adds one SUCCESS row: a withdrawal for a deposit, a deposit for a withdrawal, a transfer for a transfer, with the two accounts exchanged, the original amount and currency, no card and a link to the original, which becomes REVERSED |
| Effects.ReverseMoves | backend/app/modules/transactions/service.py:795-816 | It debits the original amount from the original's receiver and credits it to the original's sender, with one entry each, and changes nothing else |
| Effects.ReversalIsReversible | backend/app/modules/transactions/service.py:730-779 | A reversal can itself be reversed exactly when its accounts are active, its receiver covers the amount and its sender has room for it |
| Effects.EveryRunMarksCards | backend/app/modules/transactions/models.py:112-117 | In every run exactly the card payments name a card |
| Effects.AdministrationDoes | backend/app/modules/admin/service.py:88-196 | Opening an account, changing a status, issuing, blocking and deleting a card each change one row, each column given, and nothing else |
| Invariants.PostingKeepsReversals | backend/app/modules/transactions/models.py:109-111 | Postings keep every reversal the mirror image of its one original, and REVERSED originals reversed |
| Conservation.StepConserves | backend/app/modules/transactions/service.py:579-816 | For each currency the balances of all accounts stay equal to the summed inflows of executed transactions under every step |
| Conservation.InflowByKind | backend/app/modules/transactions/service.py:378-409 | What an executed row adds to a currency: deposits in, withdrawals and card payments out, transfers nothing within a currency and converted credit against debit across two |
| Conservation.InflowOfReversal | backend/app/modules/transactions/service.py:781-816 | A reversal takes back in every currency what its original brought in, exactly when the original's credited amount is its amount |
| Totals.ShownIsConserved | backend/app/modules/accounts/repository.py:90-97 | Over all accounts, the totals shown plus what is left in closed accounts equal the recorded inflows |
| Totals.TotalBalanceByCurrency | backend/app/modules/accounts/repository.py:90-97 | The loop gives a total exactly for the currencies with an account that is not closed, and each total is the sum of those balances |
| Totals.TotalOfOne | backend/app/modules/accounts/repository.py:93-96 | One account counts with its balance in its own currency, exactly unless it is CLOSED |
| Totals.TotalOfBoth | backend/app/modules/accounts/repository.py:93-96 | Totals add up over lists of accounts |
| Runs.EveryRunIsGood | backend/app/modules/ledger_entries/models.py:28-30 | From the empty bank, any run of steps ends in a state with the whole invariant and conserved totals |
| Runs.RunKeepsInv | backend/app/modules/ledger_entries/models.py:28-30 | Along any run rows keep their facts, the ledger only grows, statuses never fall in PENDING, SUCCESS, REVERSED, FAILED, and the movements of a transaction are fixed once they exist |
| Runs.AtMostOnce | backend/app/modules/transactions/repository.py:31-55 | In any run no transaction is executed twice and none is reversed twice, even with FAILED written late |
| Runs.LateFailExactly | backend/app/modules/transactions/repository.py:143-147 | A FAILED written over a status keeps "FAILED means nothing moved" exactly when the status was PENDING or FAILED |
| Runs.FailedMeansUnmovedExactly | backend/app/modules/transactions/repository.py:143-147 | After any run FAILED means that nothing moved exactly when every late FAILED of the run landed on PENDING or FAILED |
| Reversals.ReversalUndoes | backend/app/modules/transactions/service.py:781-816 | The entries of a reversal are the negation of its original's on every account exactly when the original's credited amount is its amount |
| Reversals.ReverseRestores | backend/app/modules/transactions/service.py:730-821 | Reversing a transaction right after it was posted restores every balance exactly when it was not converted |
| Witnesses.ReversalTakesTooMuch | backend/app/modules/transactions/service.py:781-816 | A run converts 100 cents to 50, confirms and reverses the transfer: the receiver, who had 200, is left with 150 |
| Reversals.ChainNet | backend/app/modules/transactions/service.py:743-779 | After any chain of reversals of reversals, the net effect on every account depends on its first two members and the parity of its length only |
| Reversals.ChainParity | backend/app/modules/transactions/service.py:743-779 | For an original that was not converted, n reversals leave the original's effect when n is even and nothing when n is odd |
| Reversals.StepKeepsAcyclic | backend/app/modules/transactions/models.py:109-111 | No step makes a cycle of reversal links |
| Reversals.RunIsAcyclic | backend/app/modules/transactions/models.py:109-111 | Reversal links have no cycles in any state that a run reaches |
| Interleaving.DecideFrame | backend/app/modules/accounts/repository.py:45-67 | A decision depends on the locked rows only: equal copies of them give equal decisions whatever the rest of the cache holds |
| Interleaving.WritesAreLocked | backend/app/modules/transactions/service.py:348-409 | Every row that an operation updates is one that it has locked |
| Interleaving.PlanAscends | backend/app/modules/accounts/repository.py:48-54 | The locks of every operation are requested in the order card, transaction, accounts by id |
| Refinement.DecisionIsCurrent | backend/app/modules/accounts/repository.py:56-67 | When a session has all its locks, the decision on its cache is the decision on the committed rows |
| Refinement.CommitIsAtomic | backend/app/modules/transactions/service.py:347-420 | At its commit point a session publishes exactly what the atomic operation would write on the rows committed at that moment |
| Refinement.EventRefines | backend/app/modules/transactions/service.py:324-449 | Every event of the concurrent machine keeps its invariant and either leaves the committed rows alone or is one enabled atomic step |
| Refinement.PlayRefinesRun | backend/app/modules/transactions/service.py:324-449 | Every interleaving is a run of the atomic steps in commit order, with the same committed state |
| Refinement.EveryPlayIsGood | backend/app/modules/ledger_entries/models.py:28-30 | In every interleaving from the empty bank balances replay from the ledger, are never negative, and totals are conserved |
| Refinement.EveryPlayMovesOnce | backend/app/modules/transactions/repository.py:31-55 | In every interleaving no transaction is executed or reversed twice |
| Refinement.EveryPlayFailsExactly | backend/app/modules/transactions/repository.py:143-147 | In every interleaving FAILED means that nothing moved exactly when every FAILED written without a lock landed on PENDING or FAILED |
| Unrefreshed.KeptCopiesPayTwice | backend/app/modules/transactions/repository.py:32-54 | In a machine whose locked reads keep the copies that a session already has, two requests that have read the same PENDING transfer execute it twice, for every quiet state with the invariant and every transfer that its accounts can carry twice: its movements are in the ledger twice and both balances move twice |
| Witnesses.KeptCopiesPayTwenty | backend/app/modules/transactions/repository.py:44-54 | A run reaches such a state: without the refresh a transfer of 10 cents costs its sender 20 |
| Refinement.StaleFailureLands | backend/app/modules/transactions/service.py:246-302 | A session that read a transfer as PENDING can mark it FAILED after another session has executed it, leaving its entries in the ledger |
| Race.RaceIsPossible | backend/app/modules/transactions/service.py:246-302 | From every quiet state with the invariant, and for every transfer that could be confirmed, two requests have an interleaving that leaves it FAILED with its money moved |
| Witnesses.RaceHappens | backend/app/modules/transactions/service.py:246-302 | A run reaches a state in which the race happens |
| Deadlock.NoDeadlock | backend/app/modules/accounts/repository.py:48-54 | In every reachable state with an unfinished operation some unfinished operation can take its next step |
| Deadlock.NoWaitCycle | backend/app/modules/accounts/repository.py:48-54 | In no reachable state do sessions wait for each other in a ring, whatever others do beside them |
| Deadlock.AllCanFinish | backend/app/modules/accounts/repository.py:48-54 | From every reachable state some play of the sessions' own steps, at most seven each, ends with all of them done |
| Deadlock.HolderIsAhead | backend/app/modules/accounts/repository.py:48-54 | Whoever holds the row that a session waits for is waiting, if at all, for a row later in the order |
| Transfers.StepKeepsSerial | backend/app/modules/transactions/service.py:115-322 | Every call, run alone, keeps the invariant, conservation, "FAILED means nothing moved", and an open challenge with attempts left for every PENDING transfer |
| Transfers.SerialRun | backend/app/modules/transactions/service.py:115-322 | All of this holds after any sequence of calls on an empty system |
| Transfers.InitiatesOwnTransfer | backend/app/modules/transactions/service.py:68-107 | An initiated transfer debits the customer's own active account, which covers it, and will credit another active one with the amount or its exact conversion |
| Answers.ValidatesExactly | backend/app/modules/transactions/service.py:68-107 | A request is valid exactly when the sender exists, is the customer's, active and in its currency, the receiver exists, differs and is active, the balance covers the amount, and the currencies agree or there is a rate; the row is then given column by column |
| Answers.ValidationNamesFirst | backend/app/modules/transactions/service.py:68-96 | A request that is not valid is refused by the first check of the list that does not hold |
| Answers.InitiatesExactly | backend/app/modules/transactions/service.py:115-140 | An initiation is done exactly for a valid request whose row the tables take; then there are one PENDING row and one challenge of five attempts more and nothing else has changed; otherwise nothing has, and the answer says why |
| Transfers.StatusTellsLedger | backend/app/modules/transactions/models.py:52-58 | In every serial run the status and type of a transaction tell its ledger entries exactly, and REVERSED holds exactly when a reversal exists |
| Invariants.NeverCrashes | backend/app/modules/transactions/service.py:362-369 | The assertions and lookups of confirmations and reversals never fail in any state with the invariant |
| Transfers.AttemptsCount | backend/app/modules/transactions/repository.py:189-207 | In every serial run the challenge row holds the code issued last and counts the codes rejected since |
| Transfers.PendingHasAttemptsLeft | backend/app/modules/transactions/service.py:260-274 | A PENDING transfer has had fewer rejected codes than allowed, so the branch for exhausted attempts is never taken |
| Transfers.CompletedByLastCode | backend/app/modules/transactions/service.py:233-304 | A confirmation executes only for the owner of the sender account, with the code issued last, before its expiry, with attempts left, on a PENDING transfer |
| Answers.ResendsExactly | backend/app/modules/transactions/service.py:180-207 | A resend gives a PENDING transfer of its sender a new code with five attempts and changes nothing else; otherwise nothing changes and the answer says why |
| Answers.ConfirmStopsAtCode | backend/app/modules/transactions/service.py:236-301 | In every serial run a confirmation that stops before the locked step answers and changes what the calls so far say: not the sender's, not PENDING, too late, wrong with attempts left, or wrong with none left |
| Answers.WrongCodeTellsLeft | backend/app/modules/transactions/service.py:276-301 | In every serial run the number that a wrong code answers is positive, and is five less the codes rejected since the last was issued, this one included |
| Answers.TriesRunOutAfter | backend/app/modules/transactions/service.py:276-301 | When k attempts are left after any sequence of calls, fewer than k more wrong codes in time leave the transfer PENDING and k make it FAILED |
| Answers.ConfirmWithRightCode | backend/app/modules/transactions/service.py:304-449 | In every serial run the right code in time executes the transfer when it is permitted and fits, fails it with the first check that does not hold, or changes nothing when the database rejects it |
| Answers.PerformsExactly | backend/app/modules/transactions/service.py:579-830 | A deposit, withdrawal, card payment or reversal is done, refused by the first check that does not hold, or aborted with nothing changed |
| Transfers.LeftPendingExactly | backend/app/modules/transactions/service.py:371-416 | The right code leaves a transfer PENDING, with nothing changed, exactly when the checks pass but the database rejects the credit |
| Transfers.StillPendingExactly | backend/app/modules/transactions/service.py:233-304 | A PENDING transfer is PENDING after a whole confirmation exactly when the caller does not own it, or when it is in time and either the code was wrong with attempts left, or right and the database rejects the credit |
| Witnesses.OneCentStaysPending | backend/app/modules/transactions/service.py:230-231 | A run initiates one cent at a rate of a tenth; its confirmation with the right code changes nothing and leaves it PENDING |
| Transfers.FailingAllPending | backend/app/background_tasks/tasks.py:223-226 | Failing any set of PENDING transfers together keeps every invariant |
| Answers.SweepFailsExactly | backend/app/background_tasks/tasks.py:213-226 | In every serial run the sweep makes exactly those PENDING transfers FAILED whose last code has expired by then, and changes no other row, balance, entry or challenge |
| Transfers.ScheduledIsTwoActions | backend/app/modules/transactions/service.py:457-473 | A scheduled transfer that goes through is an initiation followed by a confirmation |
| Services.TransactionService.FlushWritesWork | backend/app/modules/transactions/repository.py:44-54 | A flush of the identity map writes the rows worked on and nothing else; stale objects that were not changed write nothing |
| Services.TransactionService.GetOneForUpdate | backend/app/modules/accounts/repository.py:24-43 | The locked read makes the session's object equal to the current row, in the same object if there was one, and finds nothing exactly when there is no row |
| Services.TransactionService.GetTwoForUpdate | backend/app/modules/accounts/repository.py:45-76 | Both objects equal their current rows, whatever the order of the arguments |
| Services.TransactionService.GetForUpdate | backend/app/modules/transactions/repository.py:31-62 | The locked read makes the session's transaction object equal to the current row |
| Services.TransactionService.Commit | backend/app/modules/transactions/service.py:411-421 | The database becomes the old one with the work published, or stays as it was when a constraint rejects a row; either way no work is left |
| Services.TransactionService.ExecuteLockedTransfer | backend/app/modules/transactions/service.py:324-449 | From any stale identity map: executes as the decision on the current rows says, fails a refused PENDING transfer, preserves one that is no longer PENDING, and leaves everything when the database rejects the rows |
| Services.TransactionService.DepositMoney | backend/app/modules/transactions/service.py:579-644 | From any stale identity map the database and the answer are those of the decision on the current rows |
| Services.TransactionService.WithdrawMoney | backend/app/modules/transactions/service.py:646-705 | From any stale identity map the database and the answer are those of the decision on the current rows |
| CardService.Service.GetOneForUpdate | backend/app/modules/cards/repository.py:47-59 | The locked read makes the session's card object, however stale, equal to the current row, and finds nothing exactly when there is no such card or it is deleted |
| CardService.Service.PayWithCard | backend/app/modules/cards/service.py:61-134 | From stale card, account and transaction objects the database and the answer are those of the decision on the current rows |
| CardService.Service.BlockOwnCard | backend/app/modules/cards/service.py:40-59 | By the status that was seen, the row becomes BLOCKED and nothing else changes, or a conflict is raised and nothing changes |
| Services.TransactionService.ReverseTransaction | backend/app/modules/transactions/service.py:707-830 | From any stale identity map the database and the answer are those of the decision on the current rows |
| Services.TransactionService.MoveReversal | backend/app/modules/transactions/service.py:795-816 | Reading each account again just before changing it does not lose the other one's change |
| Services.TransactionService.ValidateTransfer | backend/app/modules/transactions/service.py:59-109 | The checks answer as the validation does on the accounts that the session sees |
| Services.TransactionService.InitiateTransfer | backend/app/modules/transactions/service.py:115-178 | The system becomes that of the serial call: one PENDING row and one challenge with all attempts, or nothing |
| Services.TransactionService.Confirm | backend/app/modules/transactions/service.py:233-322 | The system and the answer are those of the serial call in every branch |
| Services.TransactionService.Reject | backend/app/modules/transactions/service.py:276-301 | A wrong code is counted, and the transfer failed with the last attempt |
| Services.TransactionService.ResendOtp | backend/app/modules/transactions/service.py:180-225 | The old code, its expiry and its rejected attempts are replaced for a PENDING transfer of the sender, and nothing else changes |
| Services.TransactionService.ExecuteScheduledTransfer | backend/app/modules/transactions/service.py:457-489 | Validation goes by what the session sees and the locked step by the database; a refusal there loses the flushed row and ends in an assertion failure |
| BackgroundTasks.ExpireStaleTransactions | backend/app/background_tasks/tasks.py:192-227 | Exactly the PENDING transfers with a challenge that has expired become FAILED, all other rows, the accounts and the ledger stay, and the count is the number of rows that became FAILED |
| BackgroundTasks.ExecuteScheduledPayments | backend/app/background_tasks/tasks.py:235-282 | While other sessions commit between the turns, the loop leaves the database, the schedules, both counters and a broken end exactly as the sweep over the same turns does, for what its stale objects showed it; in a session that no other commits beside, exactly as the sweep that sees what is committed |
| BackgroundTasks.ListDue | backend/app/modules/scheduled_payments/repository.py:39-46 | The active schedules whose next run has come, each once |
| BackgroundTasks.SweepScheduledPayments | backend/app/background_tasks/tasks.py:254-282 | The sweep runs the loop over exactly the due schedules |
| BackgroundTasks.PublishFailedRows | backend/app/background_tasks/tasks.py:223-226 | Committing the rows marked by the loop fails exactly the selected set of transfers |
| BackgroundTasks.BrokenStays | backend/app/background_tasks/tasks.py:255-282 | A sweep that has broken is finished: no later schedule changes it |
| Schedules.RecheckPasses | backend/app/modules/transactions/service.py:466-473 | Run alone, a scheduled transfer that passes validation is never refused by the locked check |
| Transfers.SchedulingFailsExactly | backend/app/modules/transactions/service.py:347-449 | A scheduled transfer that was validated on a view, however stale, fails with nothing left of it exactly when its row cannot be inserted, the committed accounts are inactive or short, or the database rejects the credit; otherwise it is done |
| Transfers.FreshViewPasses | backend/app/modules/transactions/service.py:466-473 | On a view that is not stale only the insert or the credit can fail it |
| Schedules.AttemptBreaksExactly | backend/app/background_tasks/tasks.py:262-280 | An attempt raises something other than a domain error exactly when the customer exists and the payment passes validation on what the session sees, but the row, the committed accounts or the credit do not allow it |
| Schedules.PaidMovesOnce | backend/app/background_tasks/tasks.py:263-272 | A successful run adds one new SUCCESS transaction that debits the schedule's amount from its sender once and credits its receiver once |
| Schedules.PaidAsScheduled | backend/app/background_tasks/tasks.py:256-269 | A successful run pays from an account of the schedule's existing customer into the account with the schedule's number |
| Schedules.PaidAtRate | backend/app/modules/transactions/service.py:91-107 | It credits the amount within a currency, and otherwise the exact product with the active rate between the two currencies, rounded half up |
| Schedules.AttemptAnswers | backend/app/background_tasks/tasks.py:256-280 | An attempt fails for a missing customer, or with the refusal of the first check that does not hold on what was seen, and otherwise pays or breaks |
| Schedules.RequestTold | backend/app/background_tasks/tasks.py:263-269 | A schedule asks for its own terms, the account with its number and the active rate |
| Schedules.PaidMovesBalances | backend/app/background_tasks/tasks.py:263-272 | Balances change by the amounts of that transaction on its two accounts and not at all on any other |
| Schedules.PaidKeepsBank | backend/app/background_tasks/tasks.py:263-272 | A successful run keeps every invariant of the bank and its totals, and rewrites nothing |
| Schedules.FailureIsInvisible | backend/app/background_tasks/tasks.py:273-280 | Leaving out a schedule that fails with a domain error gives the same money, the same other schedules and one failure less |
| Schedules.BrokenStopsSweep | backend/app/background_tasks/tasks.py:255-282 | An error of another kind, or a crash, ends the sweep: later schedules are not processed and the schedule itself stays as it was |
| Schedules.BrokenStaysDue | backend/app/background_tasks/tasks.py:254-282 | It is due again for every later sweep |
| Witnesses.TriedForEver | backend/app/background_tasks/tasks.py:254-282 | Such a schedule is attempted by each of any number of sweeps, and nothing ever changes |
| Schedules.CrashLosesRecord | backend/app/background_tasks/tasks.py:263-271 | A crash between the commit of the payment and that of the schedule keeps the payment and loses its record |
| Witnesses.CrashPaysTwice | backend/app/background_tasks/tasks.py:263-271 | After such a crash the next sweep pays again: 20 cents for one date of a schedule of 10 |
| Witnesses.StaleViewBreaksSweep | backend/app/modules/transactions/service.py:435-437 | A withdrawal that the session has not seen makes a scheduled payment break the sweep where it should have been refused |
| Schedules.SweepBreaksExactly | backend/app/background_tasks/tasks.py:254-282 | A sweep is broken exactly when some turn crashes, or its attempt on what the turns before it left raises something other than a domain error; otherwise it processes every schedule listed |
| Witnesses.OneCentBreaksSweep | backend/app/modules/transactions/service.py:98 | In a reachable bank, one cent at a rate of a tenth breaks a sweep that lists it first, whatever the others are |
| Schedules.NextRunTellsRuns | backend/app/modules/scheduled_payments/repository.py:75-88 | In every history, with other sessions committing meanwhile, stale views and crashes, the next run is the first plus as many periods as runs were processed, paid or not |
| Schedules.NoRunIsEarly | backend/app/modules/scheduled_payments/repository.py:39-46 | The k-th run is processed no earlier than the first run date plus k periods |
| Schedules.AttemptsByTime | backend/app/modules/scheduled_payments/repository.py:17-18 | By any time t a schedule has had at most floor((t - first) / period) + 1 processed runs; attempts that break the sweep are not processed and not bounded |
| Schedules.PaidRunsMoveOnce | backend/app/background_tasks/tasks.py:270-272 | In every such history each paid run has a transaction of its own, shared with no other run, that moved the schedule's amount exactly once |
| Schedules.CancelledStaysSilent | backend/app/modules/scheduled_payments/service.py:62-75 | A cancelled schedule is never processed or changed again |
| Schedules.KeptUntilCancelled | backend/app/modules/scheduled_payments/repository.py:82-88 | In every history a schedule that nobody cancels keeps its terms and stays active, whatever has failed |
| Schedules.DueUntilCancelled | backend/app/modules/scheduled_payments/repository.py:39-46 | A schedule opened and not cancelled since is due exactly from its next run on |
| Schedules.SweepRunsDue | backend/app/background_tasks/tasks.py:254-282 | An unbroken sweep gives every schedule that was active with its next run come one run more, and no other |
| Schedules.RecordsTellRuns | backend/app/modules/scheduled_payments/repository.py:75-88 | In every history a schedule shows the transaction of its last paid run, and the failure of its last run exactly when that failed |
| Schedules.CountersTellRuns | backend/app/background_tasks/tasks.py:248-282 | The counters of a sweep are the runs that paid and those that did not |
| Schedules.PeriodsInSeconds | backend/app/modules/scheduled_payments/repository.py:10-14 | The periods are a day, seven days and thirty days |
| RefreshTokens.RevocationIsFinal | backend/app/modules/auth/service.py:344-352 | After a reuse, a password change or a reset, no earlier token of the user is valid in any later state, and no refresh of one succeeds |
| RefreshTokens.RefreshesOnce | backend/app/modules/auth/service.py:337-361 | A refreshed token can never be refreshed again: its next use revokes everything its user has |
| RefreshTokens.RefreshesExactly | backend/app/modules/auth/service.py:337-361 | A refresh goes through exactly for a valid token of an admitted user, and then the old token is revoked and linked to a valid new one of the same user |
| RefreshTokens.RefreshDoes | backend/app/modules/auth/service.py:354-361 | A refresh that goes through adds one token, revokes the old one with a link to it, and changes nothing else |
| RefreshTokens.RefreshRefusals | backend/app/modules/auth/service.py:337-356 | An unknown token, and a valid one of a blocked or inactive user, change nothing; one that is not valid revokes every unrevoked token of its user and no other |
| RefreshTokens.LogoutDoes | backend/app/modules/auth/service.py:363-368 | A logout revokes a valid token and changes nothing otherwise |
| RefreshTokens.PasswordCallsDo | backend/app/modules/auth/service.py:377-423 | A password change with the right password and a good reset of a known user revoke exactly the unrevoked tokens of the user, now; otherwise nothing changes |
| RefreshTokens.LoginRefusals | backend/app/modules/auth/service.py:217-238 | Which answer a login gives that issues no token, a second factor's challenge included |
| RefreshTokens.VerifyMfaRefusals | backend/app/modules/auth/service.py:296-312 | Which answer a second step gives that issues no token |
| RefreshTokens.LoginExactly | backend/app/modules/auth/service.py:217-242 | A login starts a new line, of one token valid until it expires, exactly when the password is right and the user is admitted, verified and without a second factor; otherwise nothing changes |
| RefreshTokens.VerifyMfaExactly | backend/app/modules/auth/service.py:295-316 | A second factor starts a new line exactly when the challenge and the code are right and the user is admitted with a second factor; otherwise nothing changes |
| RefreshTokens.LogoutIsFinal | backend/app/modules/auth/service.py:363-372 | A token that was valid at its logout is never valid again |
| RefreshTokens.OthersStaySignedIn | backend/app/modules/auth/service.py:337-372 | A call that does not revoke everything changes no token of a user but the one it was given |
| RefreshTokens.RunIsLater | backend/app/modules/auth/repository.py:25-40 | Tokens stay with their user, and revoked_at and replaced_by are written once |
| RefreshTokens.NotingKeepsLines | backend/app/modules/auth/service.py:358-360 | Every call keeps the lines of tokens disjoint and linked in order, with every replaced token revoked |
| RefreshTokens.OneLinePerLogin | backend/app/modules/auth/service.py:240-242 | In every run there are as many lines as calls that issued tokens at a login |
| RefreshTokens.OneValidPerLine | backend/app/modules/auth/service.py:337-361 | In every run a line has at most one valid token, its last |
| RefreshTokens.LinksFollowLine | backend/app/modules/auth/repository.py:25-29 | Following n replaced_by links leads n places on in the same line and ends with it |
| RefreshTokens.LinksAreAcyclic | backend/app/modules/auth/repository.py:25-29 | In every run replaced_by links have no cycle |
| RefreshTokens.OnePredecessor | backend/app/modules/auth/repository.py:25-29 | In every run no two tokens are replaced by the same one |
| AuthService.Service.RevokeAllForUser | backend/app/modules/auth/repository.py:31-40 | The loop revokes every unrevoked token of the user and changes no other |
| AuthService.Service.Refresh | backend/app/modules/auth/service.py:337-361 | The tables and the answer are those of the specification in every branch |
| AuthService.Service.Logout | backend/app/modules/auth/service.py:363-372 | A valid token is revoked; otherwise nothing changes |
| AuthService.Service.Login | backend/app/modules/auth/service.py:207-245 | The tables and the answer are those of the specification in every branch |
| AuthService.Service.VerifyMfaLogin | backend/app/modules/auth/service.py:295-319 | The tables and the answer are those of the specification in every branch |
| AuthService.Service.ChangePassword | backend/app/modules/auth/service.py:377-384 | The right password revokes all tokens of the user, the wrong one nothing |
| AuthService.Service.ConfirmPasswordReset | backend/app/modules/auth/service.py:401-423 | A valid reset of a known user revokes all tokens of the user, any other nothing |
| RateLimiter.InMemoryRateLimiter.IsAllowed | backend/app/core/rate_limiter.py:36-44 | Whatever limits and windows a key is called with, a hit is refused exactly when the allowed hits of its full history that no call since, nor this one, finds outside its window already number limit, and the deque is exactly the hits that remain |
| RateLimiter.DropIsStill | backend/app/core/rate_limiter.py:39-40 | In ascending order, popping from the front leaves exactly the hits of the window |
| RateLimiter.LiveIsRecent | backend/app/core/rate_limiter.py:38-43 | With one window, the deque is exactly the allowed hits of the full history from the last call minus the window on |
| RateLimiter.SteadySlides | backend/app/core/rate_limiter.py:36-44 | With one limit and one window, every verdict is that of the sliding window over the full history |
| RateLimiter.RefusedWhenFull | backend/app/core/rate_limiter.py:41-42 | With one limit and one window, a hit is refused exactly when the closed interval of one window up to it already holds limit allowed hits |
| RateLimiter.AtMostLimitInAnyInterval | backend/app/core/rate_limiter.py:36-44 | No closed interval as long as the window holds more than limit allowed hits |
| RateLimiter.RedisRateLimiter.IsAllowed | backend/app/core/rate_limiter.py:51-63 | The counter of a key is the number of hits since its window started, and the key ends with the window; an answered hit is allowed up to the limit; one that meets a fault, with its command carried out or not, is let through, and may leave a window without an end |
| RateLimiter.LimitPerWindow | backend/app/core/rate_limiter.py:51-60 | At most limit answered hits of one window are allowed |
| RateLimiter.AtMostTwiceLimit | backend/app/core/rate_limiter.py:51-63 | No closed interval as long as the shortest window holds more than twice limit allowed hits, beyond those let through by faults |
| RateLimiter.AtMostLimitInOneWindow | backend/app/core/rate_limiter.py:51-60 | The limit itself holds in an interval whose hits are all of one window |
| RateLimiter.EndlessWindow | backend/app/core/rate_limiter.py:57-63 | A window whose EXPIRE was lost never ends: beyond its limit no answered hit is allowed any more |
| RateLimiter.RecoversExactly | backend/app/core/rate_limiter.py:57-60 | A key that has reached its limit can be used again after some wait exactly when its window was given an end |
| RateLimiter.LockedOutForEver | backend/app/core/rate_limiter.py:57-63 | A history exists whose first hit met a fault and left no end, and in which every answered hit from the limit on is refused, for ever |
| RateLimiter.LastingKept | backend/app/core/rate_limiter.py:57-59 | Calls with windows of at least some length keep every window of the history at least that long |
| RateLimiter.TwiceLimitIsReached | backend/app/core/rate_limiter.py:53-60 | For every limit of at least one, some history reaches exactly twice the limit in such an interval |
| Conversion.ConvertIsExact | backend/app/modules/transactions/service.py:91-98 | Whenever the result fits NUMERIC(18,2), the 28-digit product is exact and the result is the exact product rounded half up |
| Conversion.ConvertFits | backend/app/modules/transactions/service.py:98 | A conversion fits its column exactly when the exact product rounded half up does, and then equals it, also where the 28-digit context rounds |
| Conversion.WithinHalfCent | backend/app/modules/transactions/service.py:98 | The converted amount is within half a cent of the exact product, ties going up |
| Conversion.RoundedIsUnique | backend/app/modules/transactions/service.py:98 | No other amount is |
| Conversion.Monotone | backend/app/modules/transactions/service.py:98 | A larger amount or rate never converts to less |
| Conversion.VanishesExactly | backend/app/modules/transactions/service.py:98 | A conversion gives 0.00 exactly when the exact product is below half a cent |
| Conversion.SplitDrift | backend/app/modules/transactions/service.py:98 | n conversions differ from the conversion of their total by at most (n + 1) / 2 cents |
| Luhn.LuhnCheckDigit | backend/app/modules/cards/repository.py:12-22 | The computed digit is the only one that makes the whole number pass an independent check from left to right |
| Luhn.GenerateSyntheticPan | backend/app/modules/cards/repository.py:25-34 | The number passes the check, is the prefix, the drawn digits and one more, and has 16 digits for prefixes of up to 15 |
| Luhn.SingleChangeDetected | backend/app/modules/cards/repository.py:12-22 | Changing any one digit makes a passing number fail |
| Luhn.SwapDetected | backend/app/modules/cards/repository.py:12-22 | Swapping two neighbours goes unnoticed exactly when they are equal, or 0 and 9 |

## Left out

- Emails, SMS, audit rows, metrics, logging and task dispatch: no effect on the modelled state.
- Customers, beneficiaries, cards and accounts as resources (profiles, soft delete and restore, listings, pagination): easy members only. Opening accounts, status changes and issuing, blocking and deleting cards are atomic steps of the environment rather than methods; blocking one's own card is also a method of `CardService.dfy`.
- Exchange-rate lookup and account-number lookup: their results are inputs. The code, the clock, the lifetimes of codes and tokens, and new ids are inputs too; ids of inserted rows are assumed fresh, which the locked machine states for sessions and the environment.
- Columns that nothing reads back: failure reasons, notes, reference numbers, completed_at, otp_verified, performed_by, last_executed_at.
- The 32-bit width of the version and attempts columns, and the request limits on amounts (at most 10^9): amounts are only bounded by NUMERIC(18,2).
- `debug_set_account_balance` in the admin router, which bypasses the ledger.
- PostgreSQL beyond row locks under READ COMMITTED: implicit foreign-key locks, and waits on unique indexes. A re-read under a lock already held is one step of the machine together with the first.
- The CHECK on negative balances is not used: balances are proved non-negative without it. The UNIQUE constraints on reversal links and ledger entries are not used either: the machine of `Unrefreshed.dfy` shows what the locks alone, without refreshed reads, would let through to them.
- Interleavings of one-time-code attempts and of refresh rotation: these take no row locks, and their properties are stated for calls that run one after the other. A sweep of scheduled payments runs in one session while others commit between its turns; the locked machine has no sweep of its own. In it the expiry sweep is a set of sessions that give up one transfer each, and a confirmation with a wrong or expired code is one that gives up.
- Cryptography: passwords, TOTP codes, JWTs and hashes are replaced by verdicts, and tokens by opaque ids that never repeat. Password hashes are not part of the state.
- Deleted cards are invisible rows; the card number itself is not stored.
- Transfers.Validate: a negative amount, which request validation excludes, is passed on unconverted to the table constraint that rejects it.
- RateLimiter.RedisRateLimiter.IsAllowed: a key is taken to be gone at its expiry time, and the clock of one key does not go back. Hits let through by faults are outside every bound.
- BackgroundTasks.ExecuteScheduledPayments: a crash in the middle of the loop is a turn of `Schedules`, not of the method; schedules cancelled during a sweep are not modelled.
- Services.TransactionService.Confirm: the challenge row is not cached across calls, and is written by the commit that follows its change.
