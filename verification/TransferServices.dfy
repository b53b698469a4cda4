/**
  `TransferService.initiate` in place, over the Postgres unit of work and the Redis
  lock manager: run alone, it does to the committed tables exactly what the
  sequential meaning says, or fails and leaves them as they are.
*/
module TransferServices {
  import opened Prelude
  import opened Domain
  import opened Accounts
  import opened Transactions
  import opened Mappers
  import opened TransferSpec
  import opened Books
  import opened Persistence
  import opened Replay
  import opened RedisLocks

  class EventBus {
    var published: seq<DomainEvent>

    constructor ()
      ensures published == []
    {
      published := [];
    }

    method PublishMany(events: seq<DomainEvent>)
      modifies this
      ensures published == old(published) + events
    {
      published := published + events;
    }
  }

  /** What every reachable state of the tables satisfies (`Books.Tidy`) and the service relies on. */
  ghost predicate Serviceable(tables: Db) {
    && (forall a :: a in tables.accounts ==> tables.accounts[a].id == a && WholeCents(tables.accounts[a].balance))
    && KeysUnique(tables.transactions)
  }

  /** The two account rows as a unit of work leaves them: updated if the transfer went through. */
  function AccountWrites(tables: Db, sender: AccountState, receiver: AccountState, moved: bool)
    : map<AccountId, AccountRow>
    requires sender.id in tables.accounts && receiver.id in tables.accounts
  {
    var row, other := tables.accounts[sender.id], tables.accounts[receiver.id];
    if moved then map[sender.id := UpdatedAccountRow(row, sender), receiver.id := UpdatedAccountRow(other, receiver)]
    else map[sender.id := row, receiver.id := other]
  }

  /** The pending writes of a unit of work that has persisted `work`. */
  function WritesOf(tables: Db, work: Work): Writes
    requires work.sender.id in tables.accounts && work.receiver.id in tables.accounts
  {
    Writes(AccountWrites(tables, work.sender, work.receiver, work.failure.None?),
           map[], [TransactionToRow(work.tx)], AsOutbox(work.sender.pending) + AsOutbox(work.receiver.pending))
  }

  /** Flushing these writes is committing that work. */
  lemma FlushIsCommit(tables: Db, work: Work)
    requires work.sender.id in tables.accounts && work.receiver.id in tables.accounts
    requires work.sender.id != work.receiver.id
    requires work.failure.None? ==>
               && 100 * work.sender.balance.cents != tables.accounts[work.sender.id].balance
               && 100 * work.receiver.balance.cents != tables.accounts[work.receiver.id].balance
    ensures FlushError(tables, WritesOf(tables, work)) == CommitError(tables, work)
    ensures Flushed(tables, WritesOf(tables, work)) == Written(tables, work)
  {
    var w := WritesOf(tables, work);
    assert TransactionToRow(work.tx) in w.inserted;
    FlushedRows(tables, work);
    assert tables.outbox + w.messages == Written(tables, work).outbox;
    if work.failure.None? {
      assert work.sender.id in w.accounts && work.receiver.id in w.accounts;
    }
  }

  lemma FlushedRows(tables: Db, work: Work)
    requires work.sender.id in tables.accounts && work.receiver.id in tables.accounts
    requires work.sender.id != work.receiver.id
    ensures Flushed(tables, WritesOf(tables, work)).accounts == Written(tables, work).accounts
    ensures Flushed(tables, WritesOf(tables, work)).transactions == Written(tables, work).transactions
  {
    var w, row := WritesOf(tables, work), TransactionToRow(work.tx);
    var same := WithUpdates(tables.transactions, w.updated);
    assert same == tables.transactions;
    assert Inserted(same, []) == same;
    assert w.inserted[..|w.inserted| - 1] == [];
  }

  lemma OneRow(added: seq<TransactionORM>)
    requires |added| == 1
    ensures RowsOf(added) == [added[0].Row()]
  {
  }

  class TransferService {
    const uow: SQLAlchemyUnitOfWork
    const lock: RedisLockManager
    const bus: EventBus

    constructor (uow: SQLAlchemyUnitOfWork, lock: RedisLockManager, bus: EventBus)
      ensures this.uow == uow && this.lock == lock && this.bus == bus
    {
      this.uow, this.lock, this.bus := uow, lock, bus;
    }

    /** The idempotency check, in a unit of work of its own. */
    method LookUp(key: IdempotencyKey) returns (r: Result<Option<Transaction>, Error>)
      requires uow.Valid() && Serviceable(uow.database.tables)
      modifies uow
      ensures uow.Valid()
      ensures var tables := uow.database.tables;
        if !KeyUsed(tables, key) then r == Ok(None)
        else match TransactionToDomain(RowOfKey(tables, key))
             case Err(e) => r == Err(e)
             case Ok(t) => r.Ok? && r.value.Some? && fresh(r.value.value) && r.value.value.State() == t
    {
      uow.Enter();
      r := uow.transactions.GetByIdempotencyKey(key);
      uow.Exit(r.Err?);
    }

    /** The `try` block and the `except` that fails the transaction. */
    static method Move(tx: Transaction, sender: Account, receiver: Account, at: Stamps) returns (failure: Option<Error>)
      requires tx.status == Pending && sender != receiver
      modifies tx, sender, receiver
      ensures MoveMoney(old(tx.State()), old(sender.State()), old(receiver.State()), at)
           == Ok(Work(tx.State(), sender.State(), receiver.State(), failure))
    {
      failure := tx.MarkProcessing(at.processing);
      if failure.None? {
        failure := sender.Debit(tx.amount, tx.id, at.debit);
      }
      if failure.None? {
        failure := receiver.Credit(tx.amount, tx.id, at.credit);
      }
      if failure.None? {
        failure := tx.Complete(at.finish);
      }
      if failure.Some? {
        var other := tx.Fail(FailureCode(failure.value), failure.value, at.finish);
      }
    }

    /** The session of this unit of work has loaded these two rows and nothing else has happened in it. */
    ghost predicate LoadedTwo(sender: Account, receiver: Account)
      reads uow, uow.session, uow.session.identity.Values, uow.accounts, uow.transactions, uow.database
      reads sender, receiver
    {
      && uow.Valid() && uow.session.Valid()
      && sender.id != receiver.id
      && uow.session.identity.Keys == {sender.id, receiver.id}
      && uow.session.loaded == map[] && uow.session.added == [] && uow.session.messages == []
      && uow.accounts.seen == [sender, receiver] && uow.transactions.seen == []
      && (forall a :: a in uow.session.identity ==>
            a in uow.database.tables.accounts && uow.session.identity[a].Row() == uow.database.tables.accounts[a])
    }

    lemma NotYetUpdated(sender: Account, receiver: Account)
      requires LoadedTwo(sender, receiver)
      ensures uow.session.AccountRows()
           == AccountWrites(uow.database.tables, sender.State(), receiver.State(), false)
    {
    }

    /** `accounts.update` for both. */
    method UpdateBoth(sender: Account, receiver: Account)
      requires LoadedTwo(sender, receiver)
      modifies uow.session.identity.Values
      ensures uow.session.Valid()
      ensures uow.session.AccountRows()
           == AccountWrites(uow.database.tables, sender.State(), receiver.State(), true)
    {
      uow.accounts.Update(sender);
      uow.accounts.Update(receiver);
    }

    /** `transactions.save` for a transaction that is not stored yet. */
    method SaveNew(tx: Transaction)
      requires uow.Valid() && tx.id !in uow.database.tables.transactions
      requires uow.session.loaded == map[] && uow.session.added == []
      modifies uow.session`added, uow.session`loaded
      ensures uow.session.PendingRows()
           == Writes(old(uow.session.AccountRows()), map[], [TransactionToRow(tx.State())], [])
    {
      hide RowsOf;
      uow.transactions.Save(tx);
      OneRow(uow.session.added);
      assert uow.session.AccountRows() == old(uow.session.AccountRows());
    }

    /** Hands the aggregates to the repositories - the accounts only if the transfer went through. */
    method Hand(tx: Transaction, sender: Account, receiver: Account, moved: bool)
      requires LoadedTwo(sender, receiver) && tx.id !in uow.database.tables.transactions
      modifies uow.session`added, uow.session`loaded, uow.session.identity.Values
      ensures uow.session.Valid()
      ensures uow.session.PendingRows()
           == Writes(AccountWrites(uow.database.tables, sender.State(), receiver.State(), moved), map[],
                     [TransactionToRow(tx.State())], [])
    {
      hide RowsOf, AccountWrites;
      NotYetUpdated(sender, receiver);
      if moved {
        UpdateBoth(sender, receiver);
      }
      SaveNew(tx);
    }

    /** Persist and commit: the end of the unit of work on both paths. */
    method Persist(tx: Transaction, sender: Account, receiver: Account, failure: Option<Error>)
      returns (raised: Option<Error>)
      requires LoadedTwo(sender, receiver) && tx.id !in uow.database.tables.transactions
      requires failure.None? ==>
                 && 100 * sender.balance.cents != uow.database.tables.accounts[sender.id].balance
                 && 100 * receiver.balance.cents != uow.database.tables.accounts[receiver.id].balance
      modifies uow.session, uow.session.identity.Values, uow.database, sender`domainEvents, receiver`domainEvents
      ensures uow.Valid()
      ensures sender.domainEvents == [] && receiver.domainEvents == []
      ensures var tables := old(uow.database.tables);
        var work := old(Work(tx.State(), sender.State(), receiver.State(), failure));
        && (raised == None ==> CommitError(tables, work).None? && uow.database.tables == Written(tables, work))
        && (raised.Some? ==> uow.database.tables == tables
                             && (|| (raised == Some(Infrastructure) && uow.database.BrokeDown())
                                 || raised == CommitError(tables, work)))
    {
      hide RowsOf, AccountWrites, AsOutbox, FlushError, Flushed, CommitError, Written, TransactionMessages,
           PendingAccountEvents, PendingTransactionEvents, Inserted;
      ghost var tables := uow.database.tables;
      ghost var work := Work(tx.State(), sender.State(), receiver.State(), failure);
      Hand(tx, sender, receiver, failure.None?);
      DrainTwo(sender, receiver);
      ghost var w := uow.session.Pending().(messages := uow.session.messages
                       + AsOutbox(PendingAccountEvents(uow.accounts.seen))
                       + TransactionMessages(PendingTransactionEvents(uow.transactions.seen)));
      assert w.messages == AsOutbox(work.sender.pending) + AsOutbox(work.receiver.pending);
      assert w == WritesOf(tables, work);
      FlushIsCommit(tables, work);
      raised := uow.Commit();
    }

    lemma DrainTwo(sender: Account, receiver: Account)
      requires uow.accounts.seen == [sender, receiver] && uow.transactions.seen == [] && sender != receiver
      ensures PendingAccountEvents(uow.accounts.seen) == sender.domainEvents + receiver.domainEvents
      ensures PendingTransactionEvents(uow.transactions.seen) == []
      ensures AsOutbox(sender.domainEvents + receiver.domainEvents)
           == AsOutbox(sender.domainEvents) + AsOutbox(receiver.domainEvents)
      ensures TransactionMessages([]) == []
    {
      DrainedPair<Account, AccountEvent>(uow.accounts.seen, AccountEvents(uow.accounts.seen));
    }

    /** The commit has broken down, so nothing was written and the request raises. */
    twostate predicate CommitBroke(response: Response)
      reads this, uow.database
    {
      response == Raised(Infrastructure) && uow.database.BrokeDown() && uow.database.tables == old(uow.database.tables)
    }

    /** Moves the money between two loaded accounts and commits, on either path. */
    method Settle(tx: Transaction, sender: Account, receiver: Account, at: Stamps) returns (response: Response)
      requires LoadedTwo(sender, receiver) && Serviceable(uow.database.tables)
      requires tx.status == Pending && tx.amount.cents > 0 && tx.id !in uow.database.tables.transactions
      requires sender.State() == LoadedFrom(uow.database.tables.accounts[sender.id])
      requires receiver.State() == LoadedFrom(uow.database.tables.accounts[receiver.id])
      modifies uow.session, uow.session.identity.Values, uow.database, tx, sender, receiver
      ensures uow.Valid()
      ensures || CommitBroke(response)
              || Settled(old(uow.database.tables),
                         MoveMoney(old(tx.State()), old(sender.State()), old(receiver.State()), at),
                         uow.database.tables, response, tx.domainEvents)
      ensures sender.domainEvents == [] && receiver.domainEvents == []
    {
      hide MoveMoney, CommitError, Written, KeysUnique, UpdatedAccountRow, AccountToRow, AsOutbox;
      ghost var start, one, other := tx.State(), sender.State(), receiver.State();
      MoveChangesBalances(start, one, other, at);
      var failure := Move(tx, sender, receiver, at);
      var raised := Persist(tx, sender, receiver, failure);
      response := if raised.Some? then Raised(raised.value)
                  else if failure.Some? then Raised(failure.value) else Returned(DtoOfTransaction(tx));
    }

    /** Tables and answer are those of this ending. */
    ghost predicate Done(ending: Ending, response: Response)
      reads this, uow.database
    {
      response == ending.response && uow.database.tables == ending.db
    }

    /** The second unit of work of `initiate`: load, move, persist, commit - or raise. */
    method RunLocked(cmd: Command, amount: Money, txId: TransactionId, at: Stamps)
      returns (response: Response, sender: Account?, receiver: Account?, tx: Transaction?)
      requires uow.Valid() && Serviceable(uow.database.tables) && txId !in uow.database.tables.transactions
      modifies uow, uow.database
      ensures uow.Valid()
      ensures || CommitBroke(response)
              || (&& Done(Locked(old(uow.database.tables), cmd, amount, txId, at), response)
                  && (response.Returned? ==>
                        tx != null
                        && tx.domainEvents == Locked(old(uow.database.tables), cmd, amount, txId, at).published))
      ensures response.Returned? ==>
                && sender != null && receiver != null && tx != null
                && fresh(sender) && fresh(receiver) && fresh(tx) && sender != receiver
                && sender.domainEvents == [] && receiver.domainEvents == []
    {
      hide Prepare, Committed, AccountToDomain, Serviceable, LoadedTwo;
      var raised;
      tx := null;
      FiledRows(uow.database.tables);
      sender, receiver, raised := LoadBoth(cmd);
      if raised.Some? {
        uow.Exit(true);
        return Raised(raised.value), null, null, null;
      }
      response, tx := InitiateAndSettle(cmd, amount, txId, at, sender, receiver);
      uow.Exit(response.Raised?);
    }

    /** Creates the transaction of two loaded accounts, moves the money and commits. */
    method InitiateAndSettle(cmd: Command, amount: Money, txId: TransactionId, at: Stamps,
                             sender: Account, receiver: Account)
      returns (response: Response, tx: Transaction?)
      requires uow.Valid() && Serviceable(uow.database.tables) && txId !in uow.database.tables.transactions
      requires sender != receiver && sender.id == cmd.fromId && receiver.id == cmd.toId
      requires cmd.fromId != cmd.toId ==> LoadedTwo(sender, receiver)
      requires cmd.fromId in uow.database.tables.accounts && cmd.toId in uow.database.tables.accounts
      requires AccountToDomain(uow.database.tables.accounts[cmd.fromId]) == Ok(sender.State())
      requires AccountToDomain(uow.database.tables.accounts[cmd.toId]) == Ok(receiver.State())
      modifies uow.session, uow.session.identity.Values, uow.database, sender, receiver
      ensures uow.Valid()
      ensures match Prepare(cmd, amount, old(sender.State()), old(receiver.State()), txId, at)
              case Err(e) => response == Raised(e) && uow.database.tables == old(uow.database.tables)
              case Ok(work) =>
                && tx != null && fresh(tx) && sender.domainEvents == [] && receiver.domainEvents == []
                && (|| CommitBroke(response)
                    || Settled(old(uow.database.tables), Ok(work), uow.database.tables, response, tx.domainEvents))
    {
      hide MoveMoney, AccountToDomain, Settled;
      LoadTidy(uow.database.tables.accounts[cmd.fromId]);
      LoadTidy(uow.database.tables.accounts[cmd.toId]);
      var initiated := Transaction.Initiate(txId, cmd.fromId, cmd.toId, amount, cmd.key, Transfer,
                                              at.created, at.touched);
      if initiated.Err? {
        return Raised(initiated.error), null;
      }
      tx := initiated.value;
      InitiatedFacts(txId, cmd, amount, at);
      MoveChangesBalances(tx.State(), sender.State(), receiver.State(), at);
      response := Settle(tx, sender, receiver, at);
    }

    lemma FiledRows(tables: Db)
      requires Serviceable(tables)
      ensures forall a :: a in tables.accounts ==> tables.accounts[a].id == a
    {
    }

    lemma InitiatedFacts(txId: TransactionId, cmd: Command, amount: Money, at: Stamps)
      ensures var t := Initiated(txId, cmd.fromId, cmd.toId, amount, cmd.key, Transfer, at.created, at.touched);
        t.Ok? ==> t.value.status == Pending && t.value.amount.cents > 0 && t.value.id == txId && cmd.fromId != cmd.toId
    {
    }

    /** Opens the unit of work and loads sender, then receiver, each with its row locked. */
    method LoadBoth(cmd: Command) returns (sender: Account?, receiver: Account?, raised: Option<Error>)
      requires uow.Valid()
      requires forall a :: a in uow.database.tables.accounts ==> uow.database.tables.accounts[a].id == a
      modifies uow
      ensures uow.Valid() && uow.session.Valid() && fresh(uow.session)
      ensures forall orm :: orm in uow.session.identity.Values ==> fresh(orm)
      ensures raised == LoadProblem(uow.database.tables, cmd)
      ensures raised.None? ==>
                && sender != null && fresh(sender) && receiver != null && fresh(receiver) && sender != receiver
                && AccountToDomain(uow.database.tables.accounts[cmd.fromId]) == Ok(sender.State())
                && AccountToDomain(uow.database.tables.accounts[cmd.toId]) == Ok(receiver.State())
                && sender.id == cmd.fromId && receiver.id == cmd.toId
                && (cmd.fromId != cmd.toId ==> LoadedTwo(sender, receiver))
    {
      hide AccountToDomain, RowProblem;
      receiver := null;
      uow.Enter();
      sender, raised := Load(cmd.fromId);
      if raised.None? {
        LoadKeepsId(uow.database.tables.accounts[cmd.fromId]);
        receiver, raised := LoadReceiver(cmd, sender);
      }
    }

    /** The receiver, once the sender is loaded. */
    method LoadReceiver(cmd: Command, sender: Account) returns (receiver: Account?, raised: Option<Error>)
      requires uow.Valid() && uow.session.Valid() && Untouched() && sender.id == cmd.fromId
      requires uow.session.identity.Keys == {cmd.fromId}
      requires uow.session.loaded == map[] && uow.session.added == [] && uow.session.messages == []
      requires uow.accounts.seen == [sender] && uow.transactions.seen == []
      requires cmd.toId in uow.database.tables.accounts ==> uow.database.tables.accounts[cmd.toId].id == cmd.toId
      modifies uow.accounts`seen, uow.session`identity
      ensures uow.session.Valid()
      ensures forall a :: a in uow.session.identity ==>
                (a in old(uow.session.identity) && uow.session.identity[a] == old(uow.session.identity)[a])
                || fresh(uow.session.identity[a])
      ensures raised == RowProblem(uow.database.tables, cmd.toId)
      ensures raised.None? ==>
                && receiver != null && fresh(receiver)
                && AccountToDomain(uow.database.tables.accounts[cmd.toId]) == Ok(receiver.State())
                && receiver.id == cmd.toId && (cmd.fromId != cmd.toId ==> LoadedTwo(sender, receiver))
    {
      hide AccountToDomain, RowProblem;
      receiver, raised := Load(cmd.toId);
      if raised.None? {
        RowProblemNone(uow.database.tables, cmd.toId);
        LoadKeepsId(uow.database.tables.accounts[cmd.toId]);
      }
    }

    /** `get_with_lock` and the check for a missing account. */
    method Load(id: AccountId) returns (account: Account?, raised: Option<Error>)
      requires uow.Valid() && uow.session.Valid() && Untouched()
      requires id in uow.database.tables.accounts ==> uow.database.tables.accounts[id].id == id
      modifies uow.accounts`seen, uow.session`identity
      ensures uow.session.Valid() && Untouched()
      ensures forall a :: a in old(uow.session.identity) ==>
                a in uow.session.identity && uow.session.identity[a] == old(uow.session.identity)[a]
      ensures forall a :: a in uow.session.identity && a !in old(uow.session.identity) ==>
                a == id && fresh(uow.session.identity[a])
      ensures raised == RowProblem(uow.database.tables, id)
      ensures raised.None? ==>
                && account != null && fresh(account) && id in uow.session.identity
                && AccountToDomain(uow.database.tables.accounts[id]) == Ok(account.State())
                && uow.accounts.seen == old(uow.accounts.seen) + [account]
    {
      hide AccountToDomain;
      var loaded := uow.accounts.GetWithLock(id);
      if loaded.Err? {
        return null, Some(loaded.error);
      }
      if loaded.value.None? {
        return null, Some(ResourceNotFound);
      }
      return loaded.value.value, None;
    }

    /** The tracked rows still are the committed ones. */
    ghost predicate Untouched()
      reads uow, uow.session, uow.session.identity.Values, uow.database
    {
      forall a :: a in uow.session.identity ==>
        a in uow.database.tables.accounts && uow.session.identity[a].Row() == uow.database.tables.accounts[a]
    }

    /** The end of `initiate`: collects what the aggregates still have pending and publishes it. */
    static method PublishEvents(bus: EventBus, sender: Account, receiver: Account, tx: Transaction)
      requires sender != receiver
      modifies bus, sender`domainEvents, receiver`domainEvents, tx`domainEvents
      ensures sender.domainEvents == [] && receiver.domainEvents == [] && tx.domainEvents == []
      ensures bus.published
           == old(bus.published) + (AsOutbox(old(sender.domainEvents)) + AsOutbox(old(receiver.domainEvents))
                                    + TransactionMessages(old(tx.domainEvents)))
    {
      var one := sender.CollectEvents();
      var other := receiver.CollectEvents();
      var more := tx.CollectEvents();
      var events := AsOutbox(one) + AsOutbox(other) + TransactionMessages(more);
      if events != [] {
        bus.PublishMany(events);
      }
    }

    /** The client is alone, and the keys of the two accounts are two and free. */
    predicate LocksFree(cmd: Command)
      reads this, lock, lock.redis
    {
      lock.redis.alone && cmd.fromId != cmd.toId && lock.redis.Free(cmd.fromId) && lock.redis.Free(cmd.toId)
    }

    /** Nothing can go wrong outside the request itself. */
    predicate Quiet(cmd: Command)
      reads this, uow, uow.database, lock, lock.redis
    {
      uow.database.reliable && LocksFree(cmd)
    }

    /** What the client has sent to Redis since. */
    twostate function Sent(): seq<RedisCommand>
      reads this, lock, lock.redis
    {
      if |old(lock.redis.sent)| <= |lock.redis.sent| then lock.redis.sent[|old(lock.redis.sent)|..] else []
    }

    /**
      One of the two keys could not be had: a call failed, or the key was polled until
      the waiting time had passed. It was not that the client was alone with both free.
    */
    twostate predicate LockRefused(cmd: Command, response: Response)
      reads this, uow, uow.database, lock, lock.redis
    {
      && !old(LocksFree(cmd)) && uow.database.tables == old(uow.database.tables)
      && (|| (&& response == Raised(ConcurrencyConflict) && lock.redis.now - old(lock.redis.now) >= lock.waitTimeout
              && (Refusal(Sent(), cmd.fromId, Busy) || Refusal(Sent(), cmd.toId, Busy)))
          || (&& response == Raised(Infrastructure)
              && (Refusal(Sent(), cmd.fromId, Broken) || Refusal(Sent(), cmd.toId, Broken))))
    }

    /** Both keys were taken, the smaller first. */
    twostate predicate LocksTaken(cmd: Command)
      reads this, lock, lock.redis
    {
      EffectOf(Sent()).taken == SortedKeys(cmd)
    }

    /** The lock bracket of `initiate` with the second unit of work inside. */
    method RunInBracket(cmd: Command, amount: Money, txId: TransactionId, at: Stamps)
      returns (response: Response, sender: Account?, receiver: Account?, tx: Transaction?)
      requires uow.Valid() && Serviceable(uow.database.tables) && txId !in uow.database.tables.transactions
      modifies uow, uow.database, lock.redis
      ensures uow.Valid()
      ensures || LockRefused(cmd, response)
              || (LocksTaken(cmd) && CommitBroke(response))
              || (&& LocksTaken(cmd) && Done(Locked(old(uow.database.tables), cmd, amount, txId, at), response)
                  && (response.Returned? ==>
                        tx != null
                        && tx.domainEvents == Locked(old(uow.database.tables), cmd, amount, txId, at).published))
      ensures response.Returned? ==>
                && sender != null && receiver != null && tx != null
                && fresh(sender) && fresh(receiver) && fresh(tx) && sender != receiver
                && sender.domainEvents == [] && receiver.domainEvents == []
      ensures ReleasedAsTaken(old(lock.redis.sent), lock.redis.sent) && EveryLease(Sent(), LOCK_TTL)
    {
      hide Locked, EffectOf, Serviceable, Refusal;
      var keys := SortedKeys(cmd);
      ghost var sent := lock.redis.sent;
      var outcome, acquired, entered := lock.Enter(keys, LOCK_TTL);
      if outcome != Reached {
        assert (sent + entered)[|sent|..] == entered;
        return Raised(if outcome == TimedOut then ConcurrencyConflict else Infrastructure), null, null, null;
      }
      response, sender, receiver, tx := RunLocked(cmd, amount, txId, at);
      var left := lock.Exit(acquired);
      NothingThenRelease(entered, left, acquired);
      assert (sent + entered + left)[|sent|..] == entered + left;
    }

    /** The part of `initiate` from taking the locks on. */
    method RunUnderLocks(cmd: Command, amount: Money, txId: TransactionId, at: Stamps) returns (response: Response)
      requires uow.Valid() && Serviceable(uow.database.tables) && txId !in uow.database.tables.transactions
      modifies uow, uow.database, lock.redis, bus
      ensures uow.Valid()
      ensures var done := Locked(old(uow.database.tables), cmd, amount, txId, at);
        || (LockRefused(cmd, response) && bus.published == old(bus.published))
        || (LocksTaken(cmd) && CommitBroke(response) && bus.published == old(bus.published))
        || (LocksTaken(cmd) && Done(done, response) && Published(done, response))
      ensures ReleasedAsTaken(old(lock.redis.sent), lock.redis.sent) && EveryLease(Sent(), LOCK_TTL)
    {
      hide Locked, ReleasedAsTaken, AsOutbox, TransactionMessages, Serviceable, EffectOf, Refusal;
      NothingTold(bus.published);
      var sender, receiver, tx;
      response, sender, receiver, tx := RunInBracket(cmd, amount, txId, at);
      if response.Returned? {
        OnlyTransactionEvents(tx.domainEvents);
        PublishEvents(bus, sender, receiver, tx);
      }
    }

    /** The bus got the events of this ending if the request returned, and nothing if it raised. */
    twostate predicate Published(ending: Ending, response: Response)
      reads this, bus
    {
      bus.published == old(bus.published) + if response.Returned? then TransactionMessages(ending.published) else []
    }

    /**
      `initiate`. Tables, answer and bus are those of the sequential meaning, except in
      three cases in which tables and bus stay as they are and the request raises: one
      of its locks could not be had, its commit broke down, or - in a transfer to the
      same account, whose first key must vanish for it to get the second - the
      aggregate refuses it. Each case has its cause on record, so in a quiet world the
      sequential meaning is all there is. A request that gets past its lookup takes both
      keys in order unless it is refused one, another takes none; and on every path the
      keys deleted are those taken, last taken first.
    */
    method Initiate(cmd: Command, txId: TransactionId, at: Stamps) returns (response: Response)
      requires uow.Valid() && Serviceable(uow.database.tables) && txId !in uow.database.tables.transactions
      modifies uow, uow.database, lock.redis, bus
      ensures uow.Valid()
      ensures var done := Sequential(old(uow.database.tables), cmd, txId, at);
        || (Done(done, response) && Published(done, response))
        || (&& bus.published == old(bus.published)
            && (|| LockRefused(cmd, response)
                || (LocksTaken(cmd) && CommitBroke(response))
                || (LocksTaken(cmd) && RefusedAsSame(cmd, txId, at, response))))
      ensures old(Quiet(cmd)) ==>
                var done := Sequential(old(uow.database.tables), cmd, txId, at);
                Done(done, response) && Published(done, response)
      ensures if KeyUsed(old(uow.database.tables), cmd.key) || CommandMoney(cmd).Err? then Sent() == []
              else LocksTaken(cmd) || LockRefused(cmd, response)
      ensures ReleasedAsTaken(old(lock.redis.sent), lock.redis.sent) && EveryLease(Sent(), 30_000_000)
    {
      hide TransactionToDomain, EffectOf, CommandMoney, Locked, TransactionMessages, Refusal, Serviceable, SortedKeys;
      NothingTold(bus.published);
      ghost var sent := lock.redis.sent;
      assert ReleasedAsTaken(sent, sent) by {
        NoCommands();
        assert sent[|sent|..] == [];
      }
      var existing := LookUp(cmd.key);
      if existing.Err? {
        return Raised(existing.error);
      }
      if existing.value.Some? {
        return Returned(DtoOfTransaction(existing.value.value));
      }
      var amount := CommandMoney(cmd);
      if amount.Err? {
        return Raised(amount.error);
      }
      SelfTransferIsRefused(uow.database.tables, cmd, amount.value, txId, at);
      response := RunUnderLocks(cmd, amount.value, txId, at);
    }

    /** The two accounts are one, and loading it or creating the transaction raises. */
    twostate predicate RefusedAsSame(cmd: Command, txId: TransactionId, at: Stamps, response: Response)
      reads this, uow, uow.database
    {
      && cmd.fromId == cmd.toId && CommandMoney(cmd).Ok? && response.Raised?
      && Done(Locked(old(uow.database.tables), cmd, CommandMoney(cmd).value, txId, at), response)
      && uow.database.tables == old(uow.database.tables)
    }

    static function DtoOfTransaction(tx: Transaction): TransactionDTO
      reads tx
    {
      TransactionDTO(tx.id, tx.fromId, tx.toId, tx.amount, tx.status, tx.key, tx.failureCode, tx.failureReason,
                     tx.createdAt, tx.completedAt)
    }
  }

  /** A transfer that goes through changes both balances, and no transfer changes an id. */
  lemma MoveChangesBalances(tx: TransactionState, sender: AccountState, receiver: AccountState, at: Stamps)
    requires tx.status == Pending && tx.amount.cents > 0
    ensures MoveMoney(tx, sender, receiver, at).Ok?
    ensures var work := MoveMoney(tx, sender, receiver, at).value;
      && work.tx.id == tx.id && work.sender.id == sender.id && work.receiver.id == receiver.id
      && (work.failure.None? ==> work.sender.balance.cents != sender.balance.cents
                                 && work.receiver.balance.cents != receiver.balance.cents)
  {
    MoveMoneyMeans(tx, sender, receiver, at);
  }

  /** Even with both locks a transfer to the same account gets nowhere. */
  lemma SelfTransferIsRefused(tables: Db, cmd: Command, amount: Money, txId: TransactionId, at: Stamps)
    ensures cmd.fromId == cmd.toId ==>
              && Locked(tables, cmd, amount, txId, at).db == tables
              && Locked(tables, cmd, amount, txId, at).response.Raised?
  {
  }

  /** What drained accounts and a completed transaction have left to tell. */
  lemma OnlyTransactionEvents(events: seq<TransactionEvent>)
    ensures AsOutbox([]) + AsOutbox([]) + TransactionMessages(events) == TransactionMessages(events)
  {
    assert AsOutbox([]) == [];
  }

  lemma NothingTold(told: seq<DomainEvent>)
    ensures told + [] == told && told + TransactionMessages([]) == told
  {
  }

  /** The lifetime `acquire` gives each key: 30 seconds. */
  const LOCK_TTL: nat := 30_000_000

  /** Between two points of the client's command log, every key taken was deleted, in reverse order. */
  ghost predicate ReleasedAsTaken(before: seq<RedisCommand>, after: seq<RedisCommand>) {
    before <= after
    && EffectOf(after[|before|..]).deleted == Reversed(EffectOf(after[|before|..]).taken)
  }

  /** Why an account cannot be loaded, if it cannot. */
  function RowProblem(tables: Db, id: AccountId): Option<Error> {
    if id !in tables.accounts then Some(ResourceNotFound)
    else match AccountToDomain(tables.accounts[id]) case Err(e) => Some(e) case Ok(_) => None
  }

  lemma RowProblemNone(tables: Db, id: AccountId)
    ensures RowProblem(tables, id).None? ==> id in tables.accounts && AccountToDomain(tables.accounts[id]).Ok?
  {
  }

  function LoadProblem(tables: Db, cmd: Command): Option<Error> {
    var first := RowProblem(tables, cmd.fromId);
    if first.Some? then first else RowProblem(tables, cmd.toId)
  }

  /** The tables and the answer are those of committing the work. */
  ghost predicate Settled(tables: Db, work: Result<Work, Error>, after: Db, response: Response,
                          events: seq<TransactionEvent>)
  {
    && work.Ok? && work.value.sender.id in tables.accounts && work.value.receiver.id in tables.accounts
    && var done := Committed(tables, work.value);
      response == done.response && after == done.db && (response.Returned? ==> events == done.published)
  }
}
