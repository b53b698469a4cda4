# Money transfers, modelled and proved

A Dafny 4.11 model of a banking service whose one hard operation is
`TransferService.initiate`: look up the idempotency key, take two Redis keys in
sorted order, lock two account rows, let the aggregates debit, credit and change
state, commit rows and outbox messages in one step, release, publish. The project
models that protocol, the aggregates and money arithmetic it rests on, the lock
managers, the unit of work and both storage adapters, and proves what they keep.
Run `dafny verify dfyconfig.toml`.

## How it is built

- `Decimals`, `MoneyValues`: decimals as sign, coefficient and exponent under a
  28-digit context; `Money` as whole cents; rounding half up.
- `Domain`, `Accounts`, `Transactions`: ids, enumerations, exceptions, events; each
  aggregate as a class that changes in place, specified by functions on its value,
  and what holds of its event log after any calls.
- `Mappers`, `Persistence`: table rows (a NUMERIC(19,4) column counted in
  ten-thousandths), ORM objects, session, repositories, unit of work, outbox drain.
- `TransferSpec`: `Sequential`, the meaning of one request run alone.
  `TransferAnswers`: what it is answered, spelled out from the command and the rows.
  `Books`: what every permitted change of the tables keeps. `Replay`: operations
  committed one after the other.
- `TransferServices`: `initiate` in place over the Postgres unit of work and the Redis
  lock manager (`RedisLocks`), proved to be `Sequential` when the database is reliable and
  the client alone with two free keys, and otherwise `Sequential` or a failure that
  changes nothing and has its cause on record: a refused key or a commit that broke down.
- `Protocol`: any number of requests in flight as a step system, with an environment
  in which leases expire, keys linger, deletes get lost, calls fail anywhere, accounts
  are opened, frozen and closed. `ProtocolSafety`: every run is serialisable, by row
  locks alone. `ProtocolIdempotency`: one key, one effect, and what the loser of a race
  for a key gets. `ProtocolAnswers`: no answer without a cause. `ProtocolEvents`: where
  events end up. `ProtocolLocks`: what the Redis keys add, and under which condition on
  leases. `PhantomDebits`: which requests make the outbox disagree with the balances.
  `ProtocolExamples`, `ReplayExamples`: runs that show what does not hold.
- `InMemoryLocks`, `InMemoryStores`: the in-memory adapter, with its shared objects, and
  the same `initiate` over it. `AdapterEquivalence`: exactly when the two adapters agree.
- `Sums`, `Prelude`: sums over finite maps, `Option` and `Result`.

Exceptions are `Err` values or an `Option<Error>`. Time stamps, fresh ids and whatever
Redis, the network and other clients do are inputs or nondeterministic choices. Account
ids are numbers in the order of the ids' text.

## Where the code differs from what is written about it

The model follows the code.

- The outbox is said never to hold an event of something that did not happen. If the
  debit succeeds and the credit raises, the sender's copy has recorded a debit, and that
  message is committed with the FAILED row. `PhantomDebits.OutboxAddsUpIff` says which
  requests do it, as a condition on the tables before the request, and
  `ReplayExamples.FailedCreditLeavesPhantom` shows one. The agreement between outbox and
  balances is proved for COMPLETED transfers without any condition.
- A duplicate key is said to be answered with the original transaction
  (`DuplicateIdempotencyKeyError`), and the lock to close the window between lookup and
  transaction. There is no second lookup under the locks, and no code raises that error.
  A request that is past its lookup when another commits under its key
  changes nothing and fails (`ProtocolIdempotency.LosersAlwaysFail`,
  `ProtocolExamples.RequestsCanLose`); only a request that looks up later gets the
  stored transaction.
- `transactions.save`, `get_by_idempotency_key` and `accounts.save` add nothing to `seen`.
  So transaction events never reach the outbox, the events of a failed transaction reach
  nobody, and no `AccountCreated` is delivered under Postgres.
- `mark_rolled_back` is documented for transactions that reached PROCESSING; it looks at
  FAILED alone (`Transactions.RollbackCheckIsExactIff`). The rollback flag it would need
  is not stored, so for a transaction loaded from its row the check and the flag disagree
  whenever it has failed (`Mappers.RollbackOfStoredIsExactIff`).
- The Redis release is an unconditional delete without an owner, so mutual exclusion by
  Redis holds as long as no lease expires under the request that has the key
  (`ProtocolLocks.CriticalSectionsAreDisjoint`), and any such expiry can break it
  (`ProtocolExamples.ExpiryBreaksExclusion`). All safety results hold with expiry. The
  row locks are taken sender first, so after an expiry two opposite transfers can wait
  for each other at the rows (`ProtocolExamples.ExpiryAllowsRowDeadlock`).
- A transfer to the same account asks for one key twice and conflicts with itself; the
  aggregate's own refusal is reached only if that key vanishes in between
  (`ProtocolLocks.SelfTransferNeverEnters`).
- Documentation speaks of a Redis idempotency cache and of an optimistic version column;
  the code has neither.
- The in-memory adapter is meant to stand in for Postgres. It does except when only the
  credit fails, where its sender stays debited, or when a column is too small
  (`AdapterEquivalence.RunAgreesIff`).

## Model

| member | source | states |
|---|---|---|
| ProtocolSafety.Serializable | src/application/services/transfer.py:58-154 | after any interleaving of any number of requests - leases expiring, keys lingering, releases lost, calls failing anywhere, accounts opened or frozen meanwhile - the committed tables are those of running the committed operations one at a time in commit order; each committed request was answered as that run answers it; each committed transfer belongs to exactly one request |
| ProtocolAnswers.AnswersHaveCauses | src/application/services/transfer.py:58-154 | in every run a request that has an answer and committed nothing was told of a breakdown or a taken key, or got the answer that running it alone - from its lookup on, or from loading on - gives at some point of the commit order |
| ProtocolSafety.CommitIsSequential | src/application/services/transfer.py:84-134 | committing work that was prepared earlier under row locks has the tables, the answer and the events of running the whole request alone at the moment of the commit |
| ProtocolSafety.StepKeepsInv | src/application/services/transfer.py:79-143 | every step of a request or of the environment keeps the invariant: loaded copies equal the locked rows, prepared work is what the domain calls make of those rows, row locks belong to who says so, ids are fresh, the tables are serial |
| ProtocolSafety.RunKeepsInv | src/application/services/transfer.py:58-154 | so does every run |
| ProtocolSafety.RowsUnderLocksStay | src/adapters/outbound/persistence/repositories/postgres_account_repository.py:30-38 | a row that one request has locked is changed by no step of another request or of the environment |
| ProtocolSafety.BooksInOrderInEveryRun | src/application/services/transfer.py:58-154 | in every reachable state: each balance is the opening balance plus completed incoming minus completed outgoing amounts and is never negative, each currency is conserved, keys are unique, and each account's outbox messages agree with its balance |
| ProtocolIdempotency.CommittedRowsAreForever | src/adapters/outbound/persistence/repositories/postgres_transaction_repository.py:38-43 | a committed transaction row is unchanged in every later state |
| ProtocolIdempotency.UsedKeyChangesNothing | src/application/services/transfer.py:61-70 | once a key is used, no step of any request with that key changes the tables |
| ProtocolIdempotency.LaterRequestsGetTheStoredRow | src/application/services/transfer.py:61-70 | a request that comes after a transaction committed under its key - COMPLETED or FAILED - is answered with that transaction or its lookup breaks down, whatever the interleaving |
| ProtocolIdempotency.LaterAnswersRepeatTheRow | src/application/services/transfer.py:61-70 | and every value it is answered with - id, both accounts, amount, currency, status, key, failure, times - is that of the committed row |
| ProtocolIdempotency.AtMostOneCommitPerKey | src/adapters/outbound/persistence/models/transaction.py:61-63 | in every reachable state at most one request per key has committed anything, and the row under the key repeats its answer |
| ProtocolIdempotency.LosersAlwaysFail | src/application/services/transfer.py:61-81 | a request that is past its lookup when its key becomes used commits nothing and ends with an exception, never with the stored transaction, in every continuation |
| ProtocolExamples.RequestsCanLose | src/application/services/transfer.py:61-81 | such a request exists: a reachable state with one |
| ProtocolIdempotency.SelfTransferChangesNothing | src/application/services/transfer.py:79-81 | no step of a transfer from an account to itself changes the tables, with or without leases |
| ProtocolEvents.EventsAreDeliveredOnce | src/application/services/transfer.py:137-143 | for every request that committed and returned: if it completed, the outbox has exactly its debit and its credit in that order and the bus exactly its three transaction events in that order; if it failed, the bus has none and the outbox at most the debit |
| ProtocolLocks.CriticalSectionsAreDisjoint | src/application/services/transfer.py:81-92 | in every run in which no lease expires under the request that has the key - keys may linger, releases get lost, keys nobody has expire - requests in the critical section have disjoint accounts and find every row they want free |
| ProtocolExamples.ExpiryBreaksExclusion | src/adapters/outbound/locking/redis_lock_manager.py:77-84 | that condition is needed: in any state with a request in the critical section, the expiry of the lease on one of its keys lets a second request in with the same account by clean steps |
| ProtocolLocks.NoCircularWait | src/application/ports/outbound/lock_manager.py:27-33 | in every run, leases expiring and releases getting lost included, no chain of waiters between distinct accounts comes back to where it started |
| ProtocolLocks.WaitersWantMore | src/application/services/transfer.py:79 | in every reachable state a waiter between distinct accounts wants a key greater than every key it has |
| ProtocolLocks.NoDeadlock | src/adapters/outbound/locking/redis_lock_manager.py:41-51 | in every state with an unfinished request between distinct accounts that a run reaches in which leases last, some step is enabled that is neither a timeout nor an interruption, if nothing lingers in that state - whatever was lost or lingered before |
| ProtocolLocks.CleanRunKeepsKeysOk | src/adapters/outbound/locking/redis_lock_manager.py:41-51 | runs without expiry, lingering keys and lost releases are such runs |
| ProtocolLocks.SelfTransferNeverEnters | src/application/services/transfer.py:79-81 | in runs in which leases last a transfer to the same account never has two keys and never gets to the aggregate's own refusal |
| ProtocolLocks.AllCanFinish | src/application/services/transfer.py:58-154 | from such a state there is a schedule without timeouts and interruptions after which all requests are finished |
| ProtocolLocks.StepLowersRank | src/application/services/transfer.py:58-154 | in every reachable state every step of a request's own brings it nearer to its end, so no request runs for ever |
| ProtocolExamples.ExpiryAllowsRowDeadlock | src/application/services/transfer.py:86-90 | in any reachable state in which a request between two existing accounts has entered and not yet locked its receiver's row, the expiry of its leases lets an opposite transfer in and, by clean steps, each lock the row the other waits for: rows are locked sender first, not sorted |
| ProtocolExamples.ExpiredLeasesAllowRowDeadlock | src/application/services/transfer.py:86-90 | such states are reachable: a run from the beginning that ends in one of these deadlocks |
| Replay.SequentialMeans | src/application/services/transfer.py:58-134 | exactly when a request run alone completes, leaves a FAILED row or changes nothing, with the new rows and the very messages: debit and credit, or only the sender's debit if only the credit failed, or none |
| TransferSpec.CommandMoneyMeans | src/application/services/transfer.py:75-76 | a command asks for exactly the amounts above -0.005 and below 10^26 - 0.005 in a known currency, rounded to the cent; which exception any other raises |
| TransferAnswers.CompletedMeans | src/application/services/transfer.py:95-154 | a request that can be carried out is answered with its completed transaction, spelled out from command, id and times, and publishes exactly its three events |
| TransferAnswers.RefusedMeans | src/application/services/transfer.py:108-126 | which exception a request raises whose accounts do not allow it, and the code and reason its FAILED row carries: closed, frozen, other currency or too little money of the sender, then closed, frozen, other currency or more than 28 digits of the receiver |
| TransferAnswers.OversizedMeans | src/adapters/outbound/persistence/models/transaction.py:34-64 | a request whose amount, key or resulting balance does not fit its column raises and leaves nothing |
| TransferAnswers.TurnedAwayMeans | src/application/services/transfer.py:73-100 | which exception a new request raises that does not get to the domain calls, in the order of the checks |
| TransferAnswers.RepeatMeans | src/application/services/transfer.py:61-70 | a request with a used key changes nothing and is answered with every value of the row under the key |
| TransferAnswers.StoredMeans | src/application/dtos/transaction.py:57-72 | a stored transaction is answered value by value |
| Replay.SequentialIsChange | src/application/services/transfer.py:58-134 | a whole request run alone is one permitted change of the tables: nothing, a refusal or a transfer under its own id and key |
| Replay.MoveMoneyMeans | src/application/services/transfer.py:101-122 | the transfer completes exactly if the sender can pay and the receiver can receive; otherwise FAILED with code, reason and rollback flag, the sender's copy debited if only the credit failed |
| Replay.MoveMoneyFailsWith | src/application/services/transfer.py:118-122 | which exception the domain calls fail with and the failure code it gets, by status, currency and balance of sender and receiver |
| Replay.PreparedMeans | src/adapters/outbound/persistence/models/transaction.py:34-64 | the database takes a request's work exactly if amount and key fit and, if it completes, the receiver's new balance does - the sender's always does; and what rows and messages it then holds |
| Replay.BooksStayInOrder | src/application/services/transfer.py:58-134 | after any sequence of transfers, account openings and status changes the books are in order |
| Replay.OpeningMeans | src/application/services/account.py:37-50 | opening an account under a new id stores an active account with the given data and its initial balance or none, remembered as its opening balance; or nothing in another currency or beyond the column |
| Books.ChangeKeepsReconciled | src/application/services/transfer.py:101-134 | each change keeps: balance = opening + completed incoming - completed outgoing, failed rows counting for nothing |
| Books.ChangeKeepsConserved | src/domain/value_objects/money.py:46-57 | each change keeps the total of every currency equal to what its accounts were opened with |
| Books.ChangeKeepsOutboxTidy | src/adapters/outbound/persistence/sqlalchemy_unit_of_work.py:63-81 | each change keeps: one debit and one credit message per completed transfer, in that order and with its amount and currency, at most a debit per failed one |
| Books.ChangeKeepsAgrees | src/adapters/outbound/persistence/sqlalchemy_unit_of_work.py:63-81 | each change keeps every account's messages of completed transfers an unbroken running sum that ends at the stored balance |
| PhantomDebits.OutboxAddsUpIff | src/application/services/transfer.py:101-126 | after any operations all messages about an account, completed or not, add up to its balance exactly if none of the operations was an admitted transfer from it whose sender could pay and whose receiver could not receive |
| PhantomDebits.OutboxAddsUpInEveryRunIff | src/adapters/outbound/persistence/sqlalchemy_unit_of_work.py:63-81 | the same of the committed tables in every run of any number of interleaved requests |
| PhantomDebits.PhantomsOfTransfer | src/application/services/transfer.py:108-126 | one request appends exactly one debit message without a debit if, before it runs, it is admitted, its sender can pay and its receiver cannot receive, and none otherwise; those there were stay |
| ReplayExamples.FailedCreditLeavesPhantom | src/application/services/transfer.py:104-126 | a run that leaves one: a payment to a frozen account changes no balance and leaves a debit message, and the messages no longer add up |
| Books.UnfilteredOutboxAgreesIff | src/adapters/outbound/persistence/sqlalchemy_unit_of_work.py:63-81 | in tables whose completed transfers agree with the outbox, all messages add up to the balance exactly if none of them is the debit of a failed transfer |
| Books.ChangeKeepsTidy | src/adapters/outbound/persistence/models/transaction.py:61-63 | each change keeps the tables well formed, the idempotency key unique |
| TransferServices.TransferService.Initiate | src/application/services/transfer.py:58-154 | run alone: tables, answer and bus are those of the sequential meaning, always so if the database is reliable, the client alone and two keys free; otherwise the request may raise with tables and bus as they were, and then one of its keys was refused after the waiting time or by a failed call, or its commit broke down, or both accounts are one; past the lookup it takes both keys in order unless refused; every key is taken for 30 seconds and deleted, last first |
| TransferServices.TransferService.Move | src/application/services/transfer.py:101-122 | the three aggregates end up as the specification of the domain calls says, on success and on every failure |
| TransferServices.TransferService.RunLocked | src/application/services/transfer.py:84-134 | the second unit of work: tables, answer and leftover events are those of load, move and commit, unless its commit broke down; then it raises and the tables stay |
| TransferServices.TransferService.InitiateAndSettle | src/application/services/transfer.py:95-134 | the outcome of the prepared work of two loaded accounts, or the exception of an unacceptable transaction with nothing changed, or the failure of a commit that broke down |
| TransferServices.TransferService.Settle | src/application/services/transfer.py:101-134 | moving and committing loaded accounts is committing the prepared work, unless the commit broke down with nothing changed; the drained accounts have nothing left to publish |
| TransferServices.TransferService.Persist | src/application/services/transfer.py:124-134 | the commit writes both account rows, the transaction row and both accounts' events, or none of it: because a row is refused or because the commit broke down |
| TransferServices.TransferService.LookUp | src/application/services/transfer.py:62-63 | finds exactly the transaction stored under the key, in a unit of work of its own |
| TransferServices.TransferService.Load | src/application/services/transfer.py:86-92 | a locked row becomes a fresh copy remembered for draining; a missing account raises |
| TransferServices.TransferService.RunUnderLocks | src/application/services/transfer.py:79-143 | from taking the locks on: both keys taken and load, move and commit done or broken down, or a key refused with its cause; completed transfers publish what is still pending; keys deleted as taken |
| TransferServices.TransferService.RunInBracket | src/application/services/transfer.py:79-134 | both keys are taken in order and the outcome is that of load, move and commit or of a commit that broke down; or one key was refused with its cause, not if the client was alone with both free; every key taken is deleted in reverse |
| TransferServices.TransferService.LoadBoth | src/application/services/transfer.py:84-92 | sender then receiver as fresh copies of locked rows, or the problem of the first that has one |
| TransferServices.TransferService.PublishEvents | src/application/services/transfer.py:137-143 | what sender, receiver and transaction have pending reaches the bus in that order, once |
| TransferServices.FlushIsCommit | src/adapters/outbound/persistence/sqlalchemy_unit_of_work.py:52-58 | flushing what this unit of work has pending is committing the prepared work, with the same refusals |
| Persistence.SQLAlchemyUnitOfWork.Enter | src/adapters/outbound/persistence/sqlalchemy_unit_of_work.py:36-40 | a new empty session shared by two new repositories |
| Persistence.SQLAlchemyUnitOfWork.Exit | src/adapters/outbound/persistence/sqlalchemy_unit_of_work.py:42-50 | the session forgets everything; the database is not touched |
| Persistence.SQLAlchemyUnitOfWork.Commit | src/adapters/outbound/persistence/sqlalchemy_unit_of_work.py:52-58 | events and rows land in one step or not at all; it raises only what the database refuses or that it broke down, which a reliable database does not; on failure the session is rolled back |
| Persistence.SQLAlchemyUnitOfWork.CollectAndStoreEvents | src/adapters/outbound/persistence/sqlalchemy_unit_of_work.py:63-81 | the pending events of all seen aggregates, accounts first, each once however often it was seen, become outbox messages and are pending no more |
| Persistence.DrainedMeans | src/adapters/outbound/persistence/sqlalchemy_unit_of_work.py:72-73 | an aggregate seen once more adds its pending events if it has not been seen before and nothing if it has |
| Persistence.FlushedMeans | src/adapters/outbound/persistence/sqlalchemy_unit_of_work.py:52-58 | where each pending row and message lands in the tables, and what stays |
| Persistence.PostgresAccountRepository.GetWithLock | src/adapters/outbound/persistence/repositories/postgres_account_repository.py:30-38 | a fresh copy of the committed row, tracked and remembered; nothing for a missing account |
| Persistence.PostgresAccountRepository.Update | src/adapters/outbound/persistence/repositories/postgres_account_repository.py:48-52 | the tracked row takes over the aggregate's state |
| Persistence.PostgresTransactionRepository.GetByIdempotencyKey | src/adapters/outbound/persistence/repositories/postgres_transaction_repository.py:26-36 | the transaction stored under the key, or nothing; not remembered for draining |
| Persistence.PostgresTransactionRepository.Save | src/adapters/outbound/persistence/repositories/postgres_transaction_repository.py:38-43 | inserts a new row or updates the tracked one; not remembered for draining |
| Mappers.AccountMapper.ToDomain | src/adapters/outbound/persistence/mappers/account.py:31-45 | a fresh aggregate with the row's values and no pending events, or the error of its amount |
| Mappers.AccountMapper.ToNewOrm | src/adapters/outbound/persistence/mappers/account.py:47-63 | a fresh row with the aggregate's values |
| Mappers.AccountMapper.UpdateOrm | src/adapters/outbound/persistence/mappers/account.py:65-83 | balance, currency, status and time of update are replaced, the rest stays |
| Mappers.TransactionMapper.ToDomain | src/adapters/outbound/persistence/mappers/transaction.py:31-49 | a fresh aggregate with the row's values, no pending events and no rollback flag |
| Mappers.TransactionMapper.ToNewOrm | src/adapters/outbound/persistence/mappers/transaction.py:51-71 | a fresh row with the aggregate's values |
| Mappers.TransactionMapper.UpdateOrm | src/adapters/outbound/persistence/mappers/transaction.py:73-93 | the five lifecycle columns are replaced, the other eight stay |
| Mappers.AccountRoundTrip | src/adapters/outbound/persistence/mappers/account.py:31-63 | storing and loading an account loses its pending events and nothing else |
| Mappers.TransactionRoundTrip | src/adapters/outbound/persistence/mappers/transaction.py:31-71 | storing and loading a transaction loses its pending events and its rollback flag and nothing else |
| Mappers.RollbackFlagIsLostAfter | src/adapters/outbound/persistence/mappers/transaction.py:31-71 | after any calls, storing and loading a transaction changes what `needs_rollback` answers exactly if it was marked processing and then failed |
| Mappers.RowRoundTripIff | src/adapters/outbound/persistence/mappers/account.py:31-63 | loading and storing a row gives it back exactly if it held whole non-negative cents within the context |
| Mappers.ColumnHas19Digits | src/adapters/outbound/persistence/models/account.py:26-30 | a monetary column holds nineteen digits |
| Mappers.AccountUpdateEqualsInsert | src/adapters/outbound/persistence/mappers/account.py:47-83 | after any calls, updating the earlier row in place equals inserting the later account afresh |
| Mappers.TransactionUpdateEqualsInsert | src/adapters/outbound/persistence/mappers/transaction.py:51-93 | the same for transactions, whose update leaves eight columns alone |
| Accounts.Account.Create | src/domain/entities/account.py:47-77 | an active account with its opening balance and one creation event, or a currency mismatch |
| Accounts.Account.Reconstitute | src/domain/entities/account.py:79-102 | an account with the given values and no event |
| Accounts.Account.Debit | src/domain/entities/account.py:113-126 | state and log become those of the debit, or an exception and nothing changed |
| Accounts.Account.Credit | src/domain/entities/account.py:128-141 | state and log become those of the credit, or an exception and nothing changed |
| Accounts.Account.Freeze | src/domain/entities/account.py:143-155 | frozen with an event, no change if frozen already, an exception if closed |
| Accounts.Account.Unfreeze | src/domain/entities/account.py:157-168 | active with an event, no change if active already, an exception if closed |
| Accounts.Account.Close | src/domain/entities/account.py:170-181 | closed with an event if open and empty, else an exception and nothing changed |
| Accounts.Account.CollectEvents | src/domain/entities/base.py:64-70 | hands out the pending events and leaves none |
| Accounts.DebitSucceedsIff | src/domain/entities/account.py:113-126 | a debit goes through exactly on an active account of that currency holding enough, and takes exactly the amount |
| Accounts.CreditSucceedsIff | src/domain/entities/account.py:128-141 | a credit goes through exactly on an active account of that currency whose sum fits 28 digits, and adds exactly the amount |
| Accounts.CreateMeans | src/domain/entities/account.py:47-77 | a new account has what it was given, its initial balance or none, is active and has recorded its creation; another currency is refused |
| Accounts.DebitMeans | src/domain/entities/account.py:113-126 | which exception refuses a debit; an accepted one takes the amount, notes the time and records amount and remainder |
| Accounts.CreditMeans | src/domain/entities/account.py:128-141 | which exception refuses a credit; an accepted one adds the amount, notes the time and records amount and sum |
| Accounts.FreezeMeans | src/domain/entities/account.py:143-155 | freezing an active account makes it frozen, records it with its reason and leaves the money; afterwards every debit and credit raises |
| Accounts.UnfreezeMeans | src/domain/entities/account.py:157-168 | unfreezing a frozen account makes it active and records it; afterwards it pays and receives by its balance alone |
| Accounts.CloseMeans | src/domain/entities/account.py:170-181 | closing is accepted exactly for an empty account that is not closed, and recorded; afterwards every debit and credit raises |
| Accounts.LogDeterminesAccount | src/domain/entities/account.py:47-181 | after any calls, accepted or rejected, the full event log adds up to balance, currency and status, every `balance_after` is the sum up to there, and the log only grows |
| Accounts.CreationIsSourced | src/domain/entities/account.py:47-77 | a created account starts such a log |
| Accounts.ClosedIsAbsorbing | src/domain/entities/account.py:170-189 | a closed account is empty, and no calls ever change it or its log |
| Transactions.Transaction.Initiate | src/domain/entities/transaction.py:54-92 | a pending transaction with one event, or the exception for a zero amount or equal accounts |
| Transactions.Transaction.MarkProcessing | src/domain/entities/transaction.py:146-166 | PENDING becomes PROCESSING with an event, else an exception and nothing changed |
| Transactions.Transaction.Complete | src/domain/entities/transaction.py:168-189 | PROCESSING becomes COMPLETED with a completion time and an event, else an exception and nothing changed |
| Transactions.Transaction.Fail | src/domain/entities/transaction.py:191-216 | PENDING or PROCESSING becomes FAILED with code, reason and rollback flag, else an exception and nothing changed |
| Transactions.Transaction.MarkRolledBack | src/domain/entities/transaction.py:218-233 | a FAILED transaction records its rollback, else an exception and nothing changed |
| Transactions.Transaction.CollectEvents | src/domain/entities/base.py:64-70 | hands out the pending events and leaves none |
| Transactions.HistoryIsLifecycleWord | src/domain/entities/transaction.py:146-233 | after any calls the event history is Initiated (Processing)? (Completed | Failed RolledBack*)? with Completed only after Processing, and status, failure fields, completion time and rollback flag are what it says |
| Transactions.EveryWordIsReached | src/domain/entities/transaction.py:146-233 | conversely every such word is the history of some calls |
| Transactions.InitiatedIsFaithful | src/domain/entities/transaction.py:54-92 | a fresh transaction has the one-letter history, a positive amount and two accounts |
| Transactions.InitiateMeans | src/domain/entities/transaction.py:54-92 | a zero amount, then equal accounts are refused; an accepted transfer is pending with what it was given and one event that says so |
| Transactions.LifecycleCallsMean | src/domain/entities/transaction.py:146-233 | from which status each call is accepted, and the status, times, failure fields and the very event it leaves |
| Transactions.TerminalIsForever | src/domain/entities/transaction.py:197-224 | a COMPLETED or FAILED transaction keeps status, failure fields and completion time under all calls |
| Transactions.RollbackCheckIsExactIff | src/domain/entities/transaction.py:218-224 | for a transaction with its whole history in memory, `mark_rolled_back` accepts exactly when a rollback is needed, exactly unless it failed straight from PENDING |
| Mappers.RollbackOfStoredIsExactIff | src/adapters/outbound/persistence/mappers/transaction.py:31-71 | for a transaction loaded from its row the two agree exactly unless it has FAILED, also when it went through PROCESSING |
| Transactions.RollbackWithoutProcessing | src/domain/entities/transaction.py:223 | an input on which the check accepts a rollback that is not needed |
| MoneyValues.MoneyAcceptsIff | src/domain/value_objects/money.py:30-44 | construction takes exactly the finite amounts above -0.005 and below 10^26 - 0.005, and holds the rounded amount |
| MoneyValues.RoundingIsNearest | src/domain/value_objects/money.py:37 | the rounded amount is within half a cent, an exact half going away from zero, for every coefficient and exponent |
| Decimals.LimitHas28Digits | src/domain/value_objects/money.py:37 | the bound on what `quantize` may return is ten to the 28th, the precision of the default context |
| MoneyValues.RoundingIsMonotone | src/domain/value_objects/money.py:37 | rounding keeps the order of all finite decimals |
| MoneyValues.QuantizeIsIdempotent | src/domain/value_objects/money.py:37 | rounding a rounded amount changes nothing |
| MoneyValues.AddIsExactOrRaises | src/domain/value_objects/money.py:46-48 | a sum is exact to the cent, or the currencies differ, or it needs more than 28 digits and raises |
| MoneyValues.SubtractIsExactOrRaises | src/domain/value_objects/money.py:50-57 | a difference is exact to the cent, or the currencies differ, or it would be negative and raises |
| MoneyValues.DebitThenCreditRestores | src/domain/value_objects/money.py:46-57 | an amount taken off can be put back and gives the old balance |
| RedisLocks.RedisLockManager.AcquireSingle | src/adapters/outbound/locking/redis_lock_manager.py:53-75 | at most one try more than there are retry intervals in the waiting time, whatever the clock does beyond the sleeps; no giving up before that time; with prompt calls exactly every 50 milliseconds and once at the end; alone, a free key is taken |
| RedisLocks.RedisLockManager.Enter | src/adapters/outbound/locking/redis_lock_manager.py:41-46 | holds all keys in order, or raises having deleted exactly those it took, last first, every lease for the lifetime asked for; it raises only after polling the next key up to a failed call or, for the waiting time, in vain, and never when alone with distinct free keys; with prompt calls lease i still has its lifetime but for one waiting time per later key |
| RedisLocks.RedisLockManager.Exit | src/adapters/outbound/locking/redis_lock_manager.py:49-51 | one unconditional delete per acquired key, last first, errors swallowed |
| RedisLocks.ReversedMeans | src/adapters/outbound/locking/redis_lock_manager.py:50 | the reverse order in which keys are deleted, position by position |
| RedisLocks.BracketReleasesWhatItTook | src/adapters/outbound/locking/redis_lock_manager.py:41-51 | whatever the body sends, the keys deleted over the whole bracket are the keys taken, in reverse |
| InMemoryLocks.InMemoryLockManager.Enter | src/adapters/outbound/locking/in_memory_lock_manager.py:28-38 | reaches the yield with all keys exactly if they are distinct and free, else raises for the first conflict with the held set as before |
| InMemoryLocks.InMemoryLockManager.Exit | src/adapters/outbound/locking/in_memory_lock_manager.py:39-41 | drops exactly the acquired keys |
| InMemoryLocks.BracketsRestore | src/adapters/outbound/locking/in_memory_lock_manager.py:28-41 | for any callers entering and leaving in any order no key is held twice, and once all have left the held set is what it was |
| InMemoryLocks.SelfTransferConflicts | src/application/services/transfer.py:79-81 | the two keys of a transfer to the same account conflict with each other |
| InMemoryStores.IndexRefinesScan | src/adapters/outbound/persistence/repositories/in_memory_transaction_repository.py:17-27 | after any saves the lookup finds something exactly if the key was ever saved, through the id saved last under it, which is never dangling, and returns what was saved last under that id |
| InMemoryStores.LookupReturnsItsKey | src/adapters/outbound/persistence/repositories/in_memory_transaction_repository.py:17-27 | with immutable keys what comes back was saved under the key asked for |
| InMemoryStores.InMemoryTransactionRepository.GetByIdempotencyKey | src/adapters/outbound/persistence/repositories/in_memory_transaction_repository.py:17-21 | nothing exactly if no save had the key, otherwise the transaction saved last under the id that was saved last with the key |
| InMemoryStores.InMemoryTransactionRepository.Save | src/adapters/outbound/persistence/repositories/in_memory_transaction_repository.py:23-27 | store and index take the transaction, and still are those of all saves so far |
| InMemoryStores.InMemoryAccountRepository.Get | src/adapters/outbound/persistence/repositories/in_memory_account_repository.py:24-36 | the stored object itself, remembered; nothing for a missing account |
| InMemoryStores.InMemoryAccountRepository.Save | src/adapters/outbound/persistence/repositories/in_memory_account_repository.py:38-39 | the object is stored under its id |
| InMemoryStores.InMemoryTransferService.Initiate | src/application/services/transfer.py:58-154 | over the shared objects of the in-memory adapter: stores, answer and bus are those of its meaning, or somebody else has one of the locks and nothing changes; the held locks are those before |
| InMemoryStores.InMemoryTells | src/application/services/transfer.py:137-143 | what the in-memory service publishes: what was pending in the sender, its debit, what was pending in the receiver, its credit, the three events of the transaction, and nothing stays pending; of a failed transfer nothing, and all of it stays pending |
| InMemoryStores.InMemoryTransferService.RunLocked | src/adapters/outbound/persistence/in_memory_unit_of_work.py:32-48 | load, move and save without commit or rollback: what the domain calls did to the stored objects stays, also when the request raises |
| InMemoryStores.InMemoryTransferService.RunInBracket | src/adapters/outbound/locking/in_memory_lock_manager.py:28-41 | gets to the transfer exactly if the accounts differ and nobody holds their keys; the held keys are those before on every way out |
| AdapterEquivalence.TransferAgreesIff | src/adapters/outbound/persistence/repositories/in_memory_account_repository.py:24-39 | one transfer leaves both adapters with the same balances, statuses, rows and keys, and the same answer, exactly unless only its credit fails or a column is too small |
| AdapterEquivalence.RunAgreesIff | src/adapters/outbound/persistence/repositories/in_memory_account_repository.py:24-39 | over any run of openings, status changes and transfers both hold the same after every operation exactly if no credit fails after a debit and nothing outgrows a column; then all answers are the same |
| AdapterEquivalence.FailedCreditLosesMoney | src/adapters/outbound/persistence/in_memory_unit_of_work.py:44-48 | if only the credit fails, the in-memory accounts hold exactly the amount less |
| AdapterEquivalence.AdaptersPart | src/adapters/outbound/persistence/repositories/in_memory_account_repository.py:30-36 | a run on which the adapters part: a payment to a frozen account |

## Left out

- HTTP routers, schemas, middleware, dependency injection, settings, logging, migrations: no stateful property.
- Outbox relay, Kafka, event bus subscription: described in the repository but not implemented there.
- SQLAlchemy, asyncpg, Postgres and Redis internals: only their contracts (one atomic commit, exclusive row locks with a fresh read, the unique index, SET NX with a lifetime, DEL) are modelled; a serialisation failure or a lost connection is the error `Infrastructure`.
- A commit whose outcome the client does not learn, and a crash between commit and publishing: a request runs to its return, and a failed commit has no effect.
- A query that breaks down before the commit, in the service in place: there only commits and Redis calls break down; in the step system every call may.
- A publish call that raises: events handed to the bus are on it.
- `AccountService` as imperative code: opening an account is the operation `OpenOp`, read access is left out.
- `get`, `exists` and `save` of the Postgres account repository and `get` and `update` of the transaction repository: not on the transfer path; `save` is the `update_orm` or `to_new_orm` that the mapper results are about.
- The in-memory unit of work as a class of its own: entering, committing and rolling back do nothing to the stores, so the service over it has no such calls; `accounts.update` is inherited and does nothing either.
- `seen` of the in-memory transaction repository: nothing reads it on this path.
- The text of exception messages, account numbers and UUIDs: `failure_reason` holds the exception itself, numbers and ids are inputs.
- The unique index on account numbers: a number is an input of opening and taken to be new.
- The text codes of enumerations in rows and events: the enumeration values stand for them.
- Signed zeros and kinds of NaN: one NaN, and zero cents is zero.
- `Money` comparison operators and `AccountStatus.can_transact`, `can_close`: no caller on this path.
- `onupdate` of `updated_at`: the mappers set that column on every update.
- A row or balance that is too big and a key that is used at the same time: the model names the column first; either way nothing is written.
- Floating-point seconds: times are whole microseconds.
- Rollback compensation after a failed transfer: no service calls `mark_rolled_back`; it is modelled in the lifecycle only.
- Fairness of the scheduler: progress is stated as an enabled step, a falling rank and a schedule that finishes, not as a liveness formula.
