# Ledger write protocol

A model of the double-entry ledger service: customer (`USER`) and platform (`SYSTEM`) accounts, transfers of two legs,
reversals, account opening and closing, idempotent retries, and the reads built on the entries. The proofs are about
what the service promises when any number of requests run at once.

## How it is organised

- **Domain.** `Money`, `Entries`, `Accounts`, `Transfers`, `Postings`: the frozen value objects and the pure posting
  functions, with every guard in its order. `Transfers` also runs the construction guards as the code does, with the
  netting loop over a totals dictionary.
- **Tables.** `Store` holds the three durable tables and the statements run on them; `Requests` and `Texts` the
  canonical text a retry is recognised by.
- **Atomic ledger.** `Ledger` gives each use case as one function of the tables. `LedgerSteps` reduces it to four
  kinds of change, `Books` states the invariants of the books and proves that every change keeps them.
- **Concurrency.** `Protocol` is the step model: one program counter per call, one database statement per step,
  uncommitted writes private to the call, waiting on keys, rows and reversal slots held by others, and crashes at any
  point. `Isolation` says what a call relies on and why others cannot disturb it, `Linearization` that every ending
  step is the atomic use case, `Runs` and `Histories` lift that to whole runs, and `Progress` proves that waiting never
  closes a circle and every schedule ends.
- **Promises.** `Guarantees`, `Verdicts`, `Reversals` and `Refusals` state what follows for callers in every reachable
  state.
- **Sequential code.** `UnitsOfWork` and `UseCases` are the adapters and use cases as classes and methods over mutable
  tables, statement by statement with commit and rollback, each held to the atomic ledger.
- **Texts and rows.** `RequestIdentity` and `CanonicalTexts` (canonical request texts), `StoreReload` (write and
  rebuild a transfer).
- **Reads.** `NegativeEpisodes` (since when an account has been in debt), `Movements` (keyset pagination), `Cursors`
  and `Instants` (the cursor and timestamp texts), `MovementPages` (pages served with their cursor texts),
  `Collections` (the operator's report), over `Chronology` and `Sorting`. `Appending` ties paging to runs, `DebtOrigins`
  and `LateCommits` tie the reported start of a debt to reversals, as far as that goes.
- **Web client.** `MoneyText`, the decimal parser and printer, and `MoneyRefusals`, the parser's reasons.

A run starts from the migrated tables (empty platform accounts only) and is any finite sequence of events: a request
begins, an open call takes its next statement, an open call is rolled back from outside, an account is opened.

## What is assumed

- Isolation is READ COMMITTED. A granted row lock returns the row as committed at that moment; a unique insert waits
  for an uncommitted holder and fails on a committed one; a commit publishes all of a transaction's writes at once.
- The locking `SELECT` reads past the session's identity map, that is, it sees the current committed row.
- SHA-256 is collision-free on canonical texts, so the text stands for its hash.
- Minted transfer and entry ids are fresh among all calls; instants are arbitrary inputs with no order among them.

## Where a plausible claim is false

- A stored transfer need not reload as the value that was returned, nor a retry get the very value the first call got,
  for two reasons. A reversal requested by the operator comes back with the requester as a plain owner id, which is not
  equal to the principal id it was returned with (`LateCommits.OperatorReversalReloadsDifferently`). And the entries
  are ordered by time alone, which both legs share, so they may come back credit first
  (`LateCommits.SwappedDepositReloadsDifferently`, `StoreReload.CreditMayComeFirst` for everything posted). The values
  are equal up to the order of the legs exactly for ordinary transfers, and equal outright exactly when, besides, the
  rows come back as written (`StoreReload.ReturnedReloadsIff`, `Guarantees.RetryEqualIff`).
- Debts begin at reversals, but the start the negative-balance query reports need not be the time of one: the query
  orders by timestamp, and timestamps are read before locks. `LateCommits.WithdrawalReported` is such a ledger. Where
  the account's own rows follow their commit order the claim holds (`DebtOrigins.ReachableDebtStartsAtReversal`); for
  one row, it is enough that what came before it in time is worth at least what was committed before it
  (`DebtOrigins.ReversalUnlessLate`).
- Currency is documented as an ISO 4217 alphabetic code; the pattern ends in `$`, which in the code's regular
  expressions also accepts a trailing newline, so that an accepted code is three capitals exactly when its length is
  three (`Money.AcceptedCodes`, `Money.NewlineAccepted`). No HTTP request can carry the longer one: the fields are fixed at three characters
  (src/modules/account_balance/adapters/inbound/api/dtos.py:30, 85, 96 and 106).

## Model

| member | source | states |
|---|---|---|
| Histories.RunIsSequential | src/modules/account_balance/application/use_cases/transfer_money.py:117-235 | Refinement. In every reachable state of every interleaving of any number of transfers, reversals, closes, opens and crashes, the committed tables are those of an atomic ledger that performed the completed requests one at a time in completion order; each completed call got the outcome it would have got in that place, and is in that history exactly once. |
| Histories.HistoryGrows | src/modules/account_balance/application/use_cases/transfer_money.py:117-145 | The sequential history only ever grows, and ended calls never change. |
| Histories.EndedBeforeBegun | src/modules/account_balance/application/use_cases/transfer_money.py:117-145 | The order of the refinement respects real time: in every run, a call that had ended before another began stands before it in every later history. |
| Appending.FailureLeavesNoTrace | src/modules/account_balance/adapters/outbound/repositories/sql/sql_unit_of_work.py:46-60 | In every run, a call that ended in any refusal changed no table at the step that ended it, and the ledger never holds a transfer under the id it minted. |
| Appending.TransfersWereReturned | src/modules/account_balance/application/use_cases/transfer_money.py:215-235 | Every transfer in the ledger of a reachable state is, but for the requester's class, what the call that minted its id was answered with. |
| Histories.UnfinishedLeavesNoTrace | src/modules/account_balance/adapters/outbound/repositories/sql/sql_unit_of_work.py:37-60 | In every reachable state, a call that is still open or was rolled back from outside has no transfer in the tables and no place in the history. |
| Linearization.Step | src/modules/account_balance/application/use_cases/transfer_money.py:117-235 | Each statement of each call re-establishes everything the call relies on, writes only rows, keys and slots it owns, and either leaves the tables alone or ends the call with exactly the tables and outcome of the atomic use case run at that moment. |
| Linearization.PostIsPrepare | src/modules/account_balance/application/use_cases/transfer_money.py:237-268 | Once every customer leg is locked, posting the locked rows together with the unlocked platform snapshot gives what the use case would compute from the tables as committed right then: no lost update through a stale read. |
| Isolation.Undisturbed | src/modules/account_balance/adapters/outbound/repositories/sql/sql_account_repository.py:114-148 | Whatever another call commits, within what it owns, every other call may still rely on all it has read and locked. |
| Runs.RunKeepsInv | src/modules/account_balance/application/use_cases/transfer_money.py:174-235 | In every reachable state each call is consistent with the committed tables and no two calls hold an idempotency key, an account row or a reversal slot in common. |
| Progress.NoDeadlock | src/modules/account_balance/adapters/outbound/repositories/sql/sql_account_repository.py:114-148 | In every reachable state the wait-for relation is acyclic: no chain of two or more calls, each waiting for the next, comes back to where it began. |
| Progress.SomeoneCanStep | src/modules/account_balance/adapters/outbound/repositories/sql/sql_account_repository.py:126-136 | While any call is open, at least one open call does not have to wait. |
| Progress.SchedulesAreFinite | src/modules/account_balance/application/use_cases/transfer_money.py:117-145 | With no new arrivals, every way of scheduling the open calls ends within a budget fixed by the starting state: no livelock. |
| Progress.RunsToCompletion | src/modules/account_balance/application/use_cases/transfer_money.py:117-145 | From every consistent state all open calls can be driven to their ends without aborting any of them. |
| LedgerSteps.ExecuteChanges | src/modules/account_balance/application/use_cases/transfer_money.py:174-235 | An atomic request either changes nothing, or posts one two-legged transfer (ordinary, or the first mirror of an existing one) with its record and row updates, or closes one active empty customer row; a returned new transfer is the one appended. |
| LedgerSteps.PublishPosts | src/modules/account_balance/application/use_cases/transfer_money.py:226-235 | Publishing a prepared posting appends its transfer, moves exactly the customer rows its two legs name by exactly the amount, bumps their versions by one, and records the key with that transfer id. |
| LedgerSteps.PreparedLegs | src/modules/account_balance/application/use_cases/transfer_money.py:202-224 | A posting is computed from the rows of the requested legs, carries the minted ids, the caller and the whole key that was sent; a transfer never takes a customer below zero and always has a customer leg, a reversal mirrors its original. |
| Requests.SameKeyIff | src/modules/account_balance/application/use_cases/revert_transfer.py:123-125 | Two requests are looked up and reserved under the same record if and only if the same caller sent the same key, whole. |
| LedgerSteps.OpenChanges | src/modules/account_balance/application/use_cases/account_register.py:37-65 | Opening inserts one empty, active, version-0 customer row exactly when the id and the natural key are free and the account is to be a checking or savings account; otherwise nothing changes. |
| Accounts.PurposesByKind | src/modules/account_balance/domain/account.py:40-59 | Checking and savings accounts are customers', funding and settlement accounts the platform's. |
| Accounts.MadeIff | src/modules/account_balance/domain/account.py:90-101 | A customer account is built from a customer purpose, a balance in its own currency and a version of at least zero, refused for the first of these that fails, and holds exactly what it was given. |
| Guarantees.BooksHold | src/modules/account_balance/domain/account.py:107-239 | In every reachable state: each customer balance is the sum of its signed entries and its version is its entry count plus one if closed; platform rows stay at zero; closed rows are empty; ordinary debits were covered by what was committed before them; debts are bounded by and begin at reversal debits; records and transfers are in bijection; reversals mirror earlier transfers, at most one each; natural keys are unique; money is conserved per currency. |
| Guarantees.NoMoneyCreatedOrLost | src/modules/account_balance/domain/posting.py:77-117 | In every reachable state and every currency, all entries of the ledger sum to zero, and the customers together hold exactly minus the entries on platform accounts. |
| Guarantees.ClosedForGood | src/modules/account_balance/application/use_cases/close_account.py:34-65 | Once an account is closed, then in every later state, whatever raced it, its row is unchanged, its balance and entry sum are zero, it is a customer account, and it has received no further entry. |
| Guarantees.CompletionPoint | src/modules/account_balance/application/use_cases/transfer_money.py:117-145 | For every ended call there is one step of the run at which it was still open, the books were sound, and the tables and outcome became those of the atomic use case. |
| Guarantees.ReturnedIsRecorded | src/modules/account_balance/adapters/outbound/repositories/sql/sql_idempotency_repository.py:55-95 | Every transfer ever returned to a caller, new or replayed, is and stays in the ledger and recorded under that caller and key with that payload. |
| Guarantees.RetriesAgree | src/modules/account_balance/application/use_cases/transfer_money.py:117-172 | At most once: all successful calls with one caller and key return the same stored transfer and carried the same canonical payload. |
| Guarantees.OnlyHolderActs | src/modules/account_balance/application/use_cases/transfer_money.py:180-213 | A call that has gone past the reservation holds its key exclusively, and nothing is committed under that key meanwhile. |
| Guarantees.RecordsStay | src/modules/account_balance/adapters/outbound/repositories/sql/sql_idempotency_repository.py:31-95 | A committed idempotency record is never replaced or removed. |
| Guarantees.ReplayOfRecorded | src/modules/account_balance/application/use_cases/transfer_money.py:147-172 | Replaying a committed record conflicts on a different payload and otherwise returns the transfer it names, which is always there. |
| Guarantees.LoserReplaysWinner | src/modules/account_balance/application/use_cases/transfer_money.py:126-145 | A call that lost the insert race is answered from the winner's record alone: the winner's transfer for the same payload, a conflict for another, and never a failure on its own merits. |
| Books.TurnKeepsSound | src/modules/account_balance/domain/account.py:159-204 | Every one of the four kinds of change keeps all of the book invariants together. |
| Books.PostKeepsReconciled | src/modules/account_balance/domain/account.py:221-239 | A posting keeps every balance equal to its entry sum and every version equal to its entry count (plus closing). |
| Books.PostKeepsDebtBounded | src/modules/account_balance/domain/account.py:164-182 | After a posting each customer still owes at most what reversal debits took from it. |
| Books.PostKeepsCovered | src/modules/account_balance/domain/account.py:164-169 | A posting keeps every ordinary debit of a customer covered, in full, by what had been committed to the account before it. |
| Books.CoveredCrossings | src/modules/account_balance/domain/account.py:164-182 | When ordinary debits are covered, the only entry that can take a customer from zero or more to below zero, in commit order, is a reversal's debit. |
| Books.PostKeepsRecorded | alembic/versions/5bf582a92358_create_transfer_tables.py:67-88 | A posting and its record keep transfers and idempotency records one to one by transfer id, caller and key. |
| Books.PostKeepsReversals | alembic/versions/cf910528c0f8_add_reverses_unique_index.py:34-40 | A posting keeps every reversal the mirror of an earlier transfer and no transfer reversed twice. |
| Books.PostKeepsConserved | src/modules/account_balance/domain/posting.py:100-117 | A posting keeps customers' total equal to minus the platform's entries in each currency. |
| Books.CloseKeepsSound | src/modules/account_balance/domain/account.py:189-204 | Closing an active empty account keeps all of the book invariants. |
| Books.OpenKeepsSound | src/modules/account_balance/application/use_cases/account_register.py:52-65 | Inserting an empty customer row keeps all of the book invariants. |
| Books.LedgerNets | src/modules/account_balance/domain/transfer.py:77-84 | If every transfer is two opposite legs then every currency of the whole ledger sums to zero. |
| Verdicts.EveryOutcomeDecided | src/modules/account_balance/application/use_cases/transfer_money.py:117-283 | Every call that ends, in any interleaving and whatever its clock read, ends as one decision table says for the rows committed at one moment of its own lifetime: refused with the first line that applies, granted (with the stated transfer, or the whole closed account) exactly when none does. |
| Verdicts.TransferDecided | src/modules/account_balance/application/use_cases/transfer_money.py:174-283 | A fresh transfer on sound books is refused, in this order, for a missing account, two platform legs, a caller who is not the payer, equal legs, differing currencies, a non-positive amount, a clock without a timezone, a closed source, insufficient funds, a closed destination; otherwise it is posted as asked, under the caller and the very key that was sent. |
| Verdicts.PostTransferRefusal | src/modules/account_balance/domain/posting.py:39-117 | The posting function refuses for the first applicable of equal legs, currencies, positivity, timezone, closed source, funds, closed destination, and for nothing else. |
| Verdicts.PostReversalRefusal | src/modules/account_balance/domain/posting.py:157-205 | For every original of two legs, the reversal posting function refuses for the first applicable of accounts that are not the original's swapped, a clock without a timezone, a closed leg, and for nothing else. |
| Verdicts.ReversalDecided | src/modules/account_balance/application/use_cases/revert_transfer.py:173-243 | A fresh operator reversal on sound books is refused only for a missing transfer, a clock without a timezone, a closed leg, or an earlier reversal, in that order; otherwise it mirrors the original, under the operator and the very key that was sent. |
| Verdicts.CloseDecided | src/modules/account_balance/application/use_cases/close_account.py:34-65 | A close is refused for a missing account, a platform or foreign account, an already closed one, a non-zero balance, in that order; otherwise the account returned is that of the committed row in every field but its status, now closed, and its version, one on. |
| Verdicts.ReplayDecided | src/modules/account_balance/application/use_cases/transfer_money.py:147-172 | A request under a recorded key returns the recorded transfer if its canonical text matches, else conflicts; nothing else about it matters. |
| Reversals.ReversalGoesThrough | src/modules/account_balance/application/use_cases/revert_transfer.py:200-243 | On sound books the operator's reversal of an existing transfer under a fresh key posts in full exactly when the clock has a timezone, both customer legs are active and it is the first, whatever the balances; otherwise the clock, then the closed leg, then the earlier reversal is what refuses it. |
| Reversals.LinkMirrors | src/modules/account_balance/domain/posting.py:157-205 | Each transfer of a reversal chain has the legs of the one before it swapped, and its amount. |
| Reversals.LinkEffect | src/modules/account_balance/domain/posting.py:157-205 | An even link of a chain moves every account as the original did, an odd link by the negation. |
| Reversals.ChainCancels | src/modules/account_balance/domain/posting.py:157-205 | An original followed by k chained reversals has on every account the original's net effect if k is even and none if k is odd. |
| Reversals.ChainsEnd | alembic/versions/cf910528c0f8_add_reverses_unique_index.py:34-40 | A chain of reversals is never longer than the ledger, so the links have no cycle. |
| Refusals.NeverInternal | src/modules/account_balance/application/use_cases/transfer_money.py:138-172 | In no run does a call end with a refusal the code keeps only as a defence: a vanished record or row, a record without its transfer, a mismatched entry or reversal, a malformed or unbalanced transfer, an undecodable row. |
| Refusals.PrepareRefusals | src/modules/account_balance/application/use_cases/revert_transfer.py:200-227 | On well-formed books preparing a posting never meets a defensive refusal, and preparing a reversal fails only for a missing transfer, a naive clock or a closed leg. |
| Refusals.ReversalRefusals | src/modules/account_balance/domain/posting.py:157-205 | Reversing a transfer that is on the books is refused by the posting function only for a naive clock or a closed leg. |
| Refusals.TransferRefusals | src/modules/account_balance/domain/posting.py:39-117 | The posting function for transfers raises only equal legs, currency, positivity, naive clock, closed account or funds. |
| Postings.TransferPostsIff | src/modules/account_balance/domain/posting.py:77-117 | An ordinary posting succeeds if and only if the legs differ, all currencies agree, the amount is positive, the instant has a timezone, the customer legs are active and a customer source can pay; it is then one debit and one credit of the full amount with the successors of exactly the customer legs. |
| Postings.ReversalPostsIff | src/modules/account_balance/domain/posting.py:157-205 | A reversal posting succeeds if and only if it swaps its original's legs, the customer legs are active and the instant has a timezone; funds are never asked for; the amount, the link and both legs are fixed by the original. |
| Postings.TwoLegsNet | src/modules/account_balance/domain/transfer.py:44-84 | A transfer of one debit and one credit of the same positive amount passes every construction guard, including netting. |
| Transfers.Construct | src/modules/account_balance/domain/transfer.py:44-84 | The guards as the code runs them decide as their specification: positivity, equal legs, leg shape, timezone, netting, with that precedence. |
| Transfers.ScanLegs | src/modules/account_balance/domain/transfer.py:56-72 | The scans find whether a leg belongs to another transfer and whether the source is debited and the destination credited. |
| Transfers.NetLegs | src/modules/account_balance/domain/transfer.py:77-84 | The totals-dictionary loop accepts exactly the leg lists in which every occurring currency sums to zero. |
| Transfers.NetsIffEveryCurrencyZero | src/modules/account_balance/domain/transfer.py:77-84 | Netting over the currencies that occur is the same as every currency whatever summing to zero. |
| UnitsOfWork.AccountRepository.Get | src/modules/account_balance/adapters/outbound/repositories/sql/sql_account_repository.py:42-52 | Find-or-fail by id: the decoded account of the row, or the not-found refusal. |
| UnitsOfWork.AccountRepository.Add | src/modules/account_balance/adapters/outbound/repositories/sql/sql_account_repository.py:54-85 | Inserts the row of a new account unless its natural key, which has its own refusal, or its id is taken; a refusal changes nothing. |
| UnitsOfWork.AccountRepository.GetForUpdate | src/modules/account_balance/adapters/outbound/repositories/sql/sql_account_repository.py:86-112 | The locked read returns the current row of a customer account and never a platform one. |
| UnitsOfWork.AccountRepository.GetManyForUpdate | src/modules/account_balance/adapters/outbound/repositories/sql/sql_account_repository.py:114-148 | Returns exactly the existing customer rows among the ids asked for, each as its row now is, having locked each once, lowest id first. |
| UnitsOfWork.AccountRepository.Update | src/modules/account_balance/adapters/outbound/repositories/sql/sql_account_repository.py:181-203 | Writes balance, status and version of the named row and nothing else; nothing at all if there is no such row. |
| UnitsOfWork.TransferRepository.Add | src/modules/account_balance/adapters/outbound/repositories/sql/sql_transfer_repository.py:32-74 | Appends the transfer, or refuses it as already reversed exactly when another row holds its `reverses` value, leaving the table as it was. |
| UnitsOfWork.TransferRepository.Get | src/modules/account_balance/adapters/outbound/repositories/sql/sql_transfer_repository.py:76-96 | Returns the stored transfer with that id, or nothing when there is none. |
| UnitsOfWork.IdempotencyRepository.Add | src/modules/account_balance/adapters/outbound/repositories/sql/sql_idempotency_repository.py:55-95 | Inserts a key once; a second insert is the record conflict and changes nothing. |
| UnitsOfWork.UnitOfWork.constructor | src/modules/account_balance/adapters/outbound/repositories/sql/sql_unit_of_work.py:37-44 | Entering binds all three repositories to one fresh session that sees the committed tables. |
| UnitsOfWork.UnitOfWork.Exit | src/modules/account_balance/adapters/outbound/repositories/sql/sql_unit_of_work.py:46-60 | A clean exit publishes all three tables at once, a failed one leaves the database exactly as it was. |
| UseCases.ReplayOrConflict | src/modules/account_balance/application/use_cases/transfer_money.py:147-172 | The replay branch returns what the atomic ledger's replay does on the session's tables. |
| UseCases.LockUserAccounts | src/modules/account_balance/application/use_cases/transfer_money.py:237-268 | However balances, statuses and versions moved since the unlocked reads, locking never fails, returns both legs as the tables now have them, and takes exactly the locks the step model takes, in its order. |
| UseCases.Authorized | src/modules/account_balance/application/use_cases/transfer_money.py:270-283 | Ownership is asked of the debited leg, or of the credited one when the platform is debited; two platform legs are refused. |
| UseCases.WritePosting | src/modules/account_balance/application/use_cases/transfer_money.py:226-235 | Inserts the transfer and updates each advanced account in turn, or refuses for the taken reversal slot. |
| UseCases.PostNewTransfer | src/modules/account_balance/application/use_cases/transfer_money.py:174-235 | The statements of a new transfer collide at the first one if the key has been recorded meanwhile, and otherwise leave the session and outcome of the atomic specification. |
| UseCases.PostNewReversal | src/modules/account_balance/application/use_cases/revert_transfer.py:173-243 | The statements of a new reversal collide at the first one if the key has been recorded meanwhile, and otherwise leave the session and outcome of the atomic specification. |
| UseCases.MoveMoney | src/modules/account_balance/application/use_cases/transfer_money.py:117-145 | Whatever other transactions commit between the lookup and the insert, a transfer or reversal through its units of work, the second one after a lost race included, ends with exactly the database and outcome of the atomic ledger on the tables that decided it. |
| UseCases.ReplayWinner | src/modules/account_balance/application/use_cases/transfer_money.py:133-145 | The second transaction after a lost race changes nothing and answers from the record it finds, or reports it vanished. |
| Accounts.SystemMadeIff | src/modules/account_balance/domain/account.py:272-277 | A platform account is built from a platform purpose and nothing else. |
| Accounts.CreditDecides | src/modules/account_balance/domain/account.py:159-162 | A credit is refused for a closed account, another account's entry, a debit entry or another currency, in that order; otherwise it adds the amount and one version and changes nothing else. |
| Accounts.DebitsDecide | src/modules/account_balance/domain/account.py:164-182 | Both debits are refused alike; otherwise they take the same amount away and differ in one thing: the ordinary one, and it alone, refuses an amount the balance does not hold. |
| Accounts.CloseDecides | src/modules/account_balance/domain/account.py:189-204 | A close is refused for an account that is not active, then for one that is not empty; otherwise it changes the status and the version alone. |
| UseCases.OpenAccount | src/modules/account_balance/application/use_cases/account_register.py:37-65 | Opening an account its owner already has hands back that very account, marked as not created, and changes nothing; otherwise a platform purpose is refused, an opening that lost to a concurrent one is told so, and else the account handed back is the new one, under its new id, empty and active, and exactly its row is inserted. |
| UseCases.CloseAccount | src/modules/account_balance/adapters/outbound/repositories/sql/sql_account_unit_of_work.py:31-52 | A close through its unit of work ends with exactly the database and outcome of the atomic ledger. |
| UseCases.CloseIn | src/modules/account_balance/application/use_cases/close_account.py:34-65 | The statements of a close leave the session and outcome of the atomic specification. |
| RequestIdentity.SameTransferIffSameText | src/modules/account_balance/application/use_cases/transfer_money.py:79-94 | Two transfer requests have equal canonical text if and only if source, destination, amount and currency are equal: the delimiter join and the decimal printing are injective together. |
| RequestIdentity.SameReversalIffSameText | src/modules/account_balance/application/use_cases/revert_transfer.py:75-83 | Two reversal requests have equal canonical text if and only if they name the same transfer. |
| RequestIdentity.TransferNeverReadsAsReversal | src/modules/account_balance/application/use_cases/transfer_money.py:79-94 | No transfer's canonical text is any reversal's. |
| RequestIdentity.UuidTextInjective | src/modules/account_balance/application/use_cases/transfer_money.py:86-94 | The canonical text of an id determines the id. |
| CanonicalTexts.TransferTextReads | src/modules/account_balance/application/use_cases/transfer_money.py:79-94 | Read field by field, a transfer's canonical text is its source, its destination, its signed minor units and its currency, in this order. |
| CanonicalTexts.ReversalTextReads | src/modules/account_balance/application/use_cases/revert_transfer.py:75-83 | A reversal's canonical text is the id of the transfer it names. |
| Money.AcceptedCodes | src/modules/shared/domain/money.py:11-30 | Accepted currency codes are exactly three of the letters A to Z, and these with a newline behind them; an accepted code is three letters if and only if its length is three. |
| Money.NewlineAccepted | src/modules/shared/domain/money.py:11-30 | The code of the dollar with a newline behind it is accepted. |
| StoreReload.ReloadsInAnyOrder | src/modules/account_balance/adapters/outbound/repositories/sql/sql_transfer_repository.py:76-96 | A posted transfer written to its two tables reloads, in whatever order its entries come back: the constructor guards accept it, the legs are those permuted, and every field is the same except that the requester comes back as a plain owner id. |
| StoreReload.ReloadsEqualIffOwner | src/modules/account_balance/adapters/outbound/repositories/sql/dbos/transfer_dbo.py:38-64 | In whatever order the rows of its entries come back, a transfer reloads; it equals the original if and only if the requester was an owner rather than the operator and the rows came back as written, and up to the order of its legs if and only if the requester was an owner. |
| LateCommits.OperatorReversalReloadsDifferently | src/modules/account_balance/adapters/outbound/repositories/sql/dbos/transfer_dbo.py:52-64 | A concrete operator reversal, executed on a ledger built from the migrated tables, whose stored form reloads, in whichever row order, but not to the value the call returned, nor to it up to the order of its legs. |
| LateCommits.SwappedDepositReloadsDifferently | src/modules/account_balance/adapters/outbound/repositories/sql/sql_transfer_repository.py:76-96 | A concrete executed deposit whose rows the query may return either way round: as written it reloads as the value returned, swapped it does not. |
| StoreReload.CreditMayComeFirst | src/modules/account_balance/adapters/outbound/repositories/sql/sql_transfer_repository.py:76-96 | For every request that posts, the query may return the credit before the debit, and the transfer read so is not the value returned. |
| StoreReload.AnyOrderOfTwo | src/modules/account_balance/adapters/outbound/repositories/sql/sql_transfer_repository.py:82-88 | The order by time leaves both orders of a posting's two legs open, and no other sequence. |
| StoreReload.ReturnedReloadsIff | src/modules/account_balance/adapters/outbound/repositories/sql/dbos/transfer_dbo.py:38-64 | For every request that posts and every order its rows may be read in: the stored form reloads; up to the order of its legs it is the value returned if and only if the request was an ordinary transfer, and it is that very value if and only if, besides, the rows came back as written. |
| Guarantees.RetryEqualIff | src/modules/account_balance/application/use_cases/revert_transfer.py:146-171 | In every run and for every order a successful retry may read the recorded rows in: it gets the value the first call got, up to the order of the legs, if and only if an ordinary transfer was asked for, and that very value if and only if, besides, the rows came back as written. |
| StoreReload.CheckedPermuted | src/modules/account_balance/domain/transfer.py:44-84 | The construction guards give the same answer for every order of the legs. |
| StoreReload.EntriesRoundTrip | src/modules/account_balance/adapters/outbound/repositories/sql/dbos/entry_dbo.py:27-46 | Entry rows, which carry no currency of their own, decode back to the entries under the transfer's currency. |
| StoreReload.PostedIsStorable | src/modules/account_balance/domain/posting.py:106-117 | Every transfer the posting functions build meets what the reload theorem asks. |
| NegativeEpisodes.LatestStartIsMax | src/modules/account_balance/adapters/outbound/repositories/sql/queries/negative_balances.py:126-146 | The reported start is the greatest time among the entries at which the running balance goes from zero or more to below zero, and is NULL exactly when there are none. |
| NegativeEpisodes.NullIffNeverNegative | src/modules/account_balance/adapters/outbound/repositories/sql/queries/negative_balances.py:105-146 | The start is NULL if and only if no running balance was ever negative. |
| NegativeEpisodes.ReportsOpenEpisode | src/modules/account_balance/adapters/outbound/repositories/sql/queries/negative_balances.py:76-146 | In (time, id) order, whenever the total is negative, the reported start is the time of the unique index that crosses below zero and after which every running balance stays below zero. |
| NegativeEpisodes.WindowSum | src/modules/account_balance/adapters/outbound/repositories/sql/queries/negative_balances.py:76-102 | The last running balance of an account's window is the sum of its entries, whatever the order of the table. |
| NegativeEpisodes.ReportedIffInDebt | src/modules/account_balance/adapters/outbound/repositories/sql/queries/negative_balances.py:52-73 | Exactly the customer accounts with a negative balance are reported. |
| NegativeEpisodes.EveryDebtIsExplained | src/modules/account_balance/adapters/outbound/repositories/sql/queries/negative_balances.py:118-158 | On reconciled books every customer account in debt is in the result, with the start of its one open episode. |
| NegativeEpisodes.NothingUnexplained | src/modules/account_balance/adapters/outbound/repositories/sql/queries/negative_balances.py:118-158 | In every reachable state no reported account lacks a start. |
| DebtOrigins.DebtStartsAtReversal | src/modules/account_balance/adapters/outbound/repositories/sql/queries/negative_balances.py:105-146 | For every ledger with sound books and every customer in debt whose rows, in commit order, never go back in (time, id): the reported start is the time of a reversal that debits the customer. |
| DebtOrigins.ReachableDebtStartsAtReversal | src/modules/account_balance/adapters/outbound/repositories/sql/queries/negative_balances.py:105-146 | The same for every reachable state, with nothing assumed but the order of the customer's own rows. |
| DebtOrigins.CrossesWhereCommitted | src/modules/account_balance/adapters/outbound/repositories/sql/queries/negative_balances.py:105-115 | Whenever the rows before an episode's start in time order add up to what was committed before it, that start is also a crossing in commit order, by a debit of the account. |
| DebtOrigins.ReversalUnlessLate | src/modules/account_balance/adapters/outbound/repositories/sql/queries/negative_balances.py:105-115 | An episode's start is a reversal's debit whenever the rows before it in time are worth at least what was committed before it; if it is an ordinary debit, it had been covered at its commit and is not in time order. |
| DebtOrigins.ReachableDebtStart | src/modules/account_balance/adapters/outbound/repositories/sql/queries/negative_balances.py:118-158 | In every reachable state, with nothing assumed about any order: every customer in debt is reported with the time of a debit of its own, a reversal's unless what had been committed before that debit is worth more than what stands before it in time. |
| DebtOrigins.PaymentsCovered | src/modules/account_balance/domain/account.py:164-169 | In every reachable state each ordinary payment by a customer was covered in full by the entries committed before it. |
| DebtOrigins.SameWindow | src/modules/account_balance/adapters/outbound/repositories/sql/queries/negative_balances.py:88-99 | The query's window is the commit order if and only if the account's rows never go back in (time, id). |
| LateCommits.WithdrawalReported | src/modules/account_balance/adapters/outbound/repositories/sql/queries/negative_balances.py:118-146 | Without that order the claim fails: on a ledger executed from the migrated tables, a debt that a reversal caused is reported as starting at an ordinary withdrawal. |
| Movements.PageCovers | src/modules/account_balance/adapters/outbound/repositories/sql/sql_movement_repository.py:36-76 | One page is strictly descending in (time, id), holds only the account's entries below the cursor, and leaves every other such entry below the next cursor. |
| Movements.VisitsAllOnce | src/modules/account_balance/adapters/outbound/repositories/sql/sql_movement_repository.py:36-76 | For any limit of at least one and whatever entries are appended between calls, at whatever timestamps, following the cursor visits every entry present at the first call exactly once, in strictly descending (time, id), and nothing of another account. |
| Appending.LivePagesVisitAllOnce | src/modules/account_balance/adapters/outbound/repositories/sql/sql_movement_repository.py:36-76 | The same over any run of the service: pages read at any moments of it list every movement of the account present at the first page, none twice, newest first. |
| Appending.LedgerGrows | src/modules/account_balance/adapters/outbound/repositories/sql/sql_transfer_repository.py:32-74 | In every run the committed transfers, and with them their entries, are only ever appended to. |
| Appending.EntryIdsUnique | alembic/versions/5bf582a92358_create_transfer_tables.py:53-64 | In every reachable state no two rows of the entries table share an id. |
| Movements.PageCount | src/modules/account_balance/adapters/outbound/repositories/sql/sql_movement_repository.py:54-76 | On a ledger nobody appends to, n entries take exactly max(1, n / limit rounded up) pages. |
| Movements.PageTakes | src/modules/account_balance/adapters/outbound/repositories/sql/sql_movement_repository.py:54-76 | A page either ends the listing with at most `limit` entries left or takes exactly `limit` off. |
| Movements.RowsAscend | src/modules/account_balance/adapters/outbound/repositories/sql/sql_movement_repository.py:45-59 | With unique entry ids, an account's rows come out in strict (time, id) order, none lost and none repeated. |
| Cursors.CursorRoundTrip | src/modules/account_balance/adapters/outbound/repositories/sql/queries/movement_cursor.py:12-32 | Decoding an encoded cursor gives back exactly the timestamp, to the microsecond and with its offset, and the entry id. |
| MovementPages.TextsListAllOnce | src/modules/account_balance/adapters/outbound/repositories/sql/sql_movement_repository.py:36-76 | With the cursor handed out and handed back as text: following it lists every entry of the account present at the first call, none twice, newest first, whatever is appended between calls. |
| MovementPages.ServedPagesListAllOnce | src/modules/account_balance/adapters/outbound/repositories/sql/sql_movement_repository.py:36-76 | The same for pages served at any moments of a run of the service. |
| MovementPages.HandedBackIsAccepted | src/modules/account_balance/adapters/outbound/repositories/sql/sql_movement_repository.py:39-42 | A call that hands back the cursor it was handed is never refused for it. |
| MovementPages.UndecodableIsRefused | src/modules/account_balance/adapters/outbound/repositories/sql/queries/movement_cursor.py:22-32 | A cursor that does not decode is refused, never read as no cursor, and there are such cursors. |
| MovementPages.TextBoundsAlike | src/modules/account_balance/adapters/outbound/repositories/sql/queries/movement_cursor.py:12-32 | A cursor's text, decoded, bounds the next page at exactly the entry it was made from, whatever offset the timestamp is shown at. |
| Instants.CalendarDays | src/modules/account_balance/adapters/outbound/repositories/sql/queries/movement_cursor.py:18-30 | The day counts used are those of 1 January 1970 and of the end of year 9999 in the Gregorian calendar, leap years and all. |
| Instants.UtcText | src/modules/account_balance/adapters/outbound/repositories/sql/queries/movement_cursor.py:18 | An offset of nothing is written +00:00. |
| Instants.DaysInMonths | src/modules/account_balance/adapters/outbound/repositories/sql/queries/movement_cursor.py:18-30 | Every month has its length, February one more day in leap years. |
| Instants.MomentNamesInstant | src/modules/account_balance/adapters/outbound/repositories/sql/queries/movement_cursor.py:18-30 | For every instant in the years 1 to 9999 and every offset, the calendar timestamp shown is valid and names that instant. |
| Cursors.Decode64Encode64 | src/modules/account_balance/adapters/outbound/repositories/sql/queries/movement_cursor.py:12-32 | URL-safe Base64 with padding (section 5 of RFC 4648) decodes to the bytes that were encoded, for every length. |
| Cursors.SextetsAreTheAlphabet | src/modules/account_balance/adapters/outbound/repositories/sql/queries/movement_cursor.py:19 | The characters used are those of the URL and filename safe alphabet, table 2 of RFC 4648, in its order. |
| Cursors.Vectors | src/modules/account_balance/adapters/outbound/repositories/sql/queries/movement_cursor.py:19 | The encoder gives the test vectors of section 10 of RFC 4648. |
| Cursors.ParseUuidUuidText | src/modules/account_balance/adapters/outbound/repositories/sql/queries/movement_cursor.py:22-32 | The canonical text of every UUID reads back as that UUID. |
| Instants.IsoRoundTrip | src/modules/account_balance/adapters/outbound/repositories/sql/queries/movement_cursor.py:12-32 | Every valid calendar timestamp reads back from its ISO 8601 text, with or without a fraction and for every offset of less than a day, to the microsecond. |
| MoneyText.AcceptedIffMeant | web/src/money/money.ts:46-99 | A typed text is accepted for v if and only if, cleaned of grouping and spaces, it reads as an optional plus, whole digits, at most one separator and at most two fraction digits, with v exactly whole times 100 plus the padded fraction, between 1 and 2^53-1: nothing is rounded. |
| MoneyRefusals.RefusedFor | web/src/money/money.ts:50-86 | Which reason each refused text gets, one equivalence a reason and in the order of the checks, read off the cleaned text: nothing; only a sign or a separator or both; a minus sign; two separators; something that is no digit; nothing after the separator; more than two digits after it. |
| MoneyRefusals.RefusedForAmount | web/src/money/money.ts:88-98 | A text is refused as not positive, or as too large, if and only if it reads as an amount of zero, or of more than 2^53-1. |
| MoneyRefusals.CleanedDrops | web/src/money/money.ts:48 | Cleaning up drops exactly the white space and every comma or underscore standing before exactly three digits, and keeps all else in order. |
| MoneyRefusals.SpaceCharacters | web/src/money/money.ts:48 | White space is the twenty-five code points the pattern stands for. |
| MoneyText.ParseFormat | web/src/money/money.ts:46-118 | Every amount from 1 to 2^53-1, printed in any currency, ends in that currency after a space, and without this suffix parses back to itself through the grouping of thousands. |
| MoneyText.FormatIs | web/src/money/money.ts:106-118 | A printed amount is its grouped whole units, a point and always exactly two digits of cents. |
| MoneyText.NegativeIsSigned | web/src/money/money.ts:106-118 | A negative amount prints as its magnitude behind a minus sign. |
| MoneyText.CommasEveryThree | web/src/money/money.ts:114 | In printed whole units a comma stands at every fourth place from the right and nowhere else. |
| MoneyText.UngroupedGrouped | web/src/money/money.ts:46-48 | Removing thousands separators undoes grouping, whatever non-digit follows the number. |
| MoneyText.PartsMean | web/src/money/money.ts:71-98 | The checks on the parts let exactly the digit parts that read as an amount be weighed, as that amount, and refuse all others for their form. |
| Collections.GetCollectionsReport | src/modules/account_balance/application/use_cases/get_collections_report.py:59-89 | Only the operator gets a report, and it is built from one ordering of the rows and one clock reading. |
| Collections.OrderedRows | src/modules/account_balance/application/gateways/models/negative_balance.py:99-121 | The rows are the query's, each once: the unexplained first, then by start, oldest first, rows with one start as they came; the unexplained are counted right and the oldest known start is that of the first row after them. |
| Collections.ExposuresByCurrency | src/modules/account_balance/application/use_cases/get_collections_report.py:111-128 | One line per currency that occurs, in strict code order, with the number of its rows and minus the sum of their balances. |
| Collections.AgeBuckets | src/modules/account_balance/application/use_cases/get_collections_report.py:131-146 | Each bucket holds the number of explained rows whose age lies in its half-open range; unexplained rows are in none. |
| Collections.BucketFor | src/modules/account_balance/application/use_cases/get_collections_report.py:142-145 | The first ceiling an age stays below belongs to the one bucket whose range holds it. |
| Collections.ReportAddsUp | src/modules/account_balance/application/use_cases/get_collections_report.py:71-146 | Bucket counts plus the unexplained equal the number of rows found, per-currency counts add up to it, and counts and totals are those of the rows as found, before ordering. |
| Collections.ReconciledReport | src/modules/account_balance/application/use_cases/get_collections_report.py:59-89 | Over reconciled books, as every reachable state has them, nothing is unexplained, every exposure is strictly positive, and the first row is the oldest. |
| Sorting.InOrderSorts | src/modules/account_balance/application/use_cases/get_collections_report.py:71-71 | The ordering is sorted, a permutation, and stable: elements that tie keep their order. |

## Left out

- LedgerSteps.OpenChanges: opening an account is one atomic event of a run; that the code looks the natural key up and
  then inserts, and what the loser of that race is told, is `UseCases.OpenAccount`'s subject.
- UseCases.MoveMoney: other transactions commit at one point only, between the lookup and the insert; interleaving at
  every statement exists only in the step model. A transfer and a reversal share this one method.
- UnitsOfWork.TransferRepository.Add: does not refuse a duplicate transfer id, which the primary key would, because
  minted ids are fresh.
- DebtOrigins.ReversalUnlessLate: the condition is sufficient, not necessary; a reversal's debit that stands early in
  time is still a reversal's.
- MovementPages.TextsListAllOnce: one listing is served at one offset from UTC throughout, and its entries lie in the
  years 1 to 9999, which is all the clock's type can hold.
- UnitsOfWork.AccountRepository.GetManyForUpdate: the one locking statement is a loop that takes its rows one at a
  time, as the database does; waiting for other holders exists only in the step model.
- UnitsOfWork.TransferRepository.Get: returns the stored value, and so do replays in the step model; that the rows are
  decoded, and may come back in either order, is the subject of `StoreReload` and `Guarantees.RetryEqualIff`.
- Linearization.Step: account updates are private to the call until its commit, so the two last statements of a
  posting and the commit are one step; share locks taken by foreign keys are dropped, as customer legs are already
  locked exclusively and platform rows never are.
- RequestIdentity.SameTransferIffSameText: is about the text that is hashed, not about SHA-256 itself.
- Cursors.CursorRoundTrip: the decoder is strict where the library's is lenient (stray characters in Base64, other
  spellings of a UUID or a timestamp); it says nothing about cursors the service did not issue.
- Movements.VisitsAllOnce: needs a limit of at least one, which the route enforces
  (src/modules/account_balance/adapters/inbound/api/routes.py:141). The join to the transfer's own columns is not
  modelled.
- NegativeEpisodes.EveryDebtIsExplained: instants are microseconds on one line; timezones are only told apart from
  their absence.
- MoneyText.ParseFormat: all currencies offered have two decimals, so the exponent is a constant; negative and zero
  amounts print but do not parse, as in the code.
- Idempotency keys are plain strings; their trimming and length limit are not modelled.
- 64-bit overflow of amounts and 32-bit overflow of versions, and the widths of text columns: integers and texts are
  unbounded.
- Lock timeouts, connection loss and cancellation are one event, a rollback from outside at any point before the commit.
- Deposit and withdrawal: thin wrappers that call the transfer use case with a platform account on one leg.
- GetAccount, ListAccounts and ListMovements: single reads with an ownership check.
- HTTP routes, DTOs, error-to-status mapping, dependency injection, logging, settings, id generation and the clock.
- Infrastructure, containers, scripts, and the web client apart from its money text.
