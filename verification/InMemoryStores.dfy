/**
  The in-memory adapter: dictionaries of aggregates that are shared with their
  users, a unit of work whose commit does nothing, and the same `initiate` over it.
*/
module InMemoryStores {
  import opened Prelude
  import opened Decimals
  import opened Domain
  import opened MoneyValues
  import opened Accounts
  import opened Transactions
  import opened TransferSpec
  import opened Persistence
  import opened TransferServices
  import opened InMemoryLocks
  import opened Replay

  // ----- The transaction repository and its index -----------------------------------

  /** One call of `save`: the id and key of the transaction at that moment, and the transaction. */
  datatype Saved<T> = Saved(id: TransactionId, key: IdempotencyKey, tx: T)

  /** `_store` and `_by_idempotency` after these saves. */
  function StoreAfter<T>(saves: seq<Saved<T>>): map<TransactionId, T> {
    if saves == [] then map[]
    else StoreAfter(saves[..|saves| - 1])[saves[|saves| - 1].id := saves[|saves| - 1].tx]
  }

  function IndexAfter<T>(saves: seq<Saved<T>>): map<IdempotencyKey, TransactionId> {
    if saves == [] then map[]
    else IndexAfter(saves[..|saves| - 1])[saves[|saves| - 1].key := saves[|saves| - 1].id]
  }

  /** The two dictionary lookups of `get_by_idempotency_key`. */
  function ByIndex<T>(store: map<TransactionId, T>, index: map<IdempotencyKey, TransactionId>, key: IdempotencyKey)
    : Option<T>
  {
    if key !in index then None else if index[key] !in store then None else Some(store[index[key]])
  }

  /** The position of the last save of a transaction with this key, of this id. */
  ghost predicate LastWithKey<T>(saves: seq<Saved<T>>, key: IdempotencyKey, i: nat) {
    i < |saves| && saves[i].key == key && forall j :: i < j < |saves| ==> saves[j].key != key
  }

  ghost predicate LastWithId<T>(saves: seq<Saved<T>>, id: TransactionId, i: nat) {
    i < |saves| && saves[i].id == id && forall j :: i < j < |saves| ==> saves[j].id != id
  }

  lemma LastWithIdStep<T>(saves: seq<Saved<T>>, id: TransactionId, i: nat)
    requires saves != []
    ensures var n := |saves| - 1;
      LastWithId(saves, id, i) <==> if saves[n].id == id then i == n else LastWithId(saves[..n], id, i)
  {
  }

  lemma LastWithKeyStep<T>(saves: seq<Saved<T>>, key: IdempotencyKey, i: nat)
    requires saves != []
    ensures var n := |saves| - 1;
      LastWithKey(saves, key, i) <==> if saves[n].key == key then i == n else LastWithKey(saves[..n], key, i)
  {
  }

  /** The store has for an id what was saved last under it, and for an id never saved nothing. */
  lemma {:induction false} StoreHoldsLast<T>(saves: seq<Saved<T>>, id: TransactionId)
    ensures forall i: nat :: LastWithId(saves, id, i) ==>
              id in StoreAfter(saves) && StoreAfter(saves)[id] == saves[i].tx
    ensures id in StoreAfter(saves) ==> exists i: nat :: LastWithId(saves, id, i)
  {
    if saves != [] {
      var n := |saves| - 1;
      StoreHoldsLast(saves[..n], id);
      forall i: nat
        ensures LastWithId(saves, id, i) <==> if saves[n].id == id then i == n else LastWithId(saves[..n], id, i)
      {
        LastWithIdStep(saves, id, i);
      }
      if saves[n].id == id {
        assert LastWithId(saves, id, n);
      }
      hide LastWithId;
    }
  }

  /** The same of the index. */
  lemma {:induction false} IndexHoldsLast<T>(saves: seq<Saved<T>>, key: IdempotencyKey)
    ensures forall i: nat :: LastWithKey(saves, key, i) ==>
              key in IndexAfter(saves) && IndexAfter(saves)[key] == saves[i].id
    ensures key in IndexAfter(saves) ==> exists i: nat :: LastWithKey(saves, key, i)
  {
    if saves != [] {
      var n := |saves| - 1;
      IndexHoldsLast(saves[..n], key);
      forall i: nat
        ensures LastWithKey(saves, key, i) <==> if saves[n].key == key then i == n else LastWithKey(saves[..n], key, i)
      {
        LastWithKeyStep(saves, key, i);
      }
      if saves[n].key == key {
        assert LastWithKey(saves, key, n);
      }
      hide LastWithKey;
    }
  }

  lemma {:induction false} IndexHasSavedKeys<T>(saves: seq<Saved<T>>, key: IdempotencyKey)
    ensures key in IndexAfter(saves) <==> exists i :: 0 <= i < |saves| && saves[i].key == key
  {
    if saves != [] {
      var n := |saves| - 1;
      IndexHasSavedKeys(saves[..n], key);
      assert forall i :: 0 <= i < n ==> saves[..n][i] == saves[i];
    }
  }

  /**
    The index refines a scan of the save history: the lookup finds something exactly
    if a transaction with that key was ever saved; the id it goes through is the one
    saved last under the key, it is never dangling, and what comes back is the
    transaction saved last under that id.
  */
  lemma IndexRefinesScan<T>(saves: seq<Saved<T>>, key: IdempotencyKey)
    ensures ByIndex(StoreAfter(saves), IndexAfter(saves), key).None?
        <==> forall i :: 0 <= i < |saves| ==> saves[i].key != key
    ensures forall i: nat, j: nat :: LastWithKey(saves, key, i) && LastWithId(saves, saves[i].id, j) ==>
              ByIndex(StoreAfter(saves), IndexAfter(saves), key) == Some(saves[j].tx)
    ensures key in IndexAfter(saves) ==> IndexAfter(saves)[key] in StoreAfter(saves)
  {
    IndexHoldsLast(saves, key);
    IndexHasSavedKeys(saves, key);
    forall i: nat, j: nat | LastWithKey(saves, key, i) && LastWithId(saves, saves[i].id, j)
      ensures ByIndex(StoreAfter(saves), IndexAfter(saves), key) == Some(saves[j].tx)
    {
      hide StoreAfter, IndexAfter, LastWithKey, LastWithId;
      StoreHoldsLast(saves, saves[i].id);
    }
    hide StoreAfter, IndexAfter, LastWithKey, LastWithId;
    if key in IndexAfter(saves) {
      var i: nat :| LastWithKey(saves, key, i);
      IndexLeadsToStored(saves, key, i);
    }
  }

  /** The id under a key was itself saved. */
  lemma IndexLeadsToStored<T>(saves: seq<Saved<T>>, key: IdempotencyKey, i: nat)
    requires LastWithKey(saves, key, i)
    ensures saves[i].id in StoreAfter(saves)
  {
    SavedIsStored(saves, i);
  }

  lemma {:induction false} SavedIsStored<T>(saves: seq<Saved<T>>, i: nat)
    requires i < |saves|
    ensures saves[i].id in StoreAfter(saves)
  {
    if i < |saves| - 1 {
      SavedIsStored(saves[..|saves| - 1], i);
    }
  }

  /** A result that is what the scan says is what the two lookups say. */
  lemma ScanIsLookup<T>(saves: seq<Saved<T>>, key: IdempotencyKey, r: Option<T>)
    requires r == None <==> forall i :: 0 <= i < |saves| ==> saves[i].key != key
    requires forall i: nat, j: nat :: LastWithKey(saves, key, i) && LastWithId(saves, saves[i].id, j) ==>
               r == Some(saves[j].tx)
    ensures r == ByIndex(StoreAfter(saves), IndexAfter(saves), key)
  {
    IndexRefinesScan(saves, key);
    IndexHoldsLast(saves, key);
    if r != None {
      var i: nat :| LastWithKey(saves, key, i);
      StoreHoldsLast(saves, saves[i].id);
    }
  }

  /** Keys never change: an id is always saved under one key. */
  ghost predicate KeysImmutable<T>(saves: seq<Saved<T>>) {
    forall i, j :: 0 <= i < |saves| && 0 <= j < |saves| && saves[i].id == saves[j].id ==> saves[i].key == saves[j].key
  }

  /** Then what comes back was itself saved under the key asked for. */
  lemma LookupReturnsItsKey<T>(saves: seq<Saved<T>>, key: IdempotencyKey, i: nat, j: nat)
    requires KeysImmutable(saves) && LastWithKey(saves, key, i) && LastWithId(saves, saves[i].id, j)
    ensures saves[j].key == key && ByIndex(StoreAfter(saves), IndexAfter(saves), key) == Some(saves[j].tx)
  {
    IndexRefinesScan(saves, key);
  }

  class InMemoryTransactionRepository {
    var store: map<TransactionId, Transaction>
    var byIdempotency: map<IdempotencyKey, TransactionId>
    /** All calls of `Save` so far. */
    ghost var saves: seq<Saved<Transaction>>

    constructor ()
      ensures Valid() && saves == []
    {
      store, byIdempotency, saves := map[], map[], [];
    }

    ghost predicate Valid()
      reads this
    {
      store == StoreAfter(saves) && byIdempotency == IndexAfter(saves)
    }

    /** Finds what a scan of all saves would: nothing if the key was never saved, else the id saved last under it. */
    method GetByIdempotencyKey(key: IdempotencyKey) returns (r: Option<Transaction>)
      requires Valid()
      ensures r == None <==> forall i :: 0 <= i < |saves| ==> saves[i].key != key
      ensures forall i: nat, j: nat :: LastWithKey(saves, key, i) && LastWithId(saves, saves[i].id, j) ==>
                r == Some(saves[j].tx)
    {
      IndexRefinesScan(saves, key);
      if key !in byIdempotency {
        return None;
      }
      var txId := byIdempotency[key];
      return if txId in store then Some(store[txId]) else None;
    }

    method Save(tx: Transaction)
      requires Valid()
      modifies this
      ensures Valid() && saves == old(saves) + [Saved(tx.id, tx.key, tx)]
      ensures store == old(store)[tx.id := tx] && byIdempotency == old(byIdempotency)[tx.key := tx.id]
    {
      store := store[tx.id := tx];
      byIdempotency := byIdempotency[tx.key := tx.id];
      saves := saves + [Saved(tx.id, tx.key, tx)];
    }
  }

  // ----- The account repository --------------------------------------------------------

  class InMemoryAccountRepository {
    var store: map<AccountId, Account>
    var seen: seq<Account>

    constructor ()
      ensures store == map[] && seen == []
    {
      store, seen := map[], [];
    }

    /** `get` and `get_with_lock`: no copy, no lock - the stored object itself. */
    method Get(id: AccountId) returns (account: Account?)
      modifies this`seen
      ensures if id in store then account == store[id] && seen == old(seen) + [store[id]]
              else account == null && seen == old(seen)
    {
      if id !in store {
        return null;
      }
      account := store[id];
      seen := seen + [account];
    }

    method Save(account: Account)
      modifies this`store
      ensures store == old(store)[account.id := account]
    {
      store := store[account.id := account];
    }
  }

  // ----- What a request does in memory --------------------------------------------------

  /** The values behind the dictionaries. */
  datatype Memory = Memory(accounts: map<AccountId, AccountState>, transactions: map<TransactionId, TransactionState>,
                           index: map<IdempotencyKey, TransactionId>)

  datatype MemoryOutcome = MemoryOutcome(memory: Memory, response: Response, published: seq<DomainEvent>)

  /** Sender and receiver are changed where they are, whether the transfer goes through or not. */
  function MemoryAfter(m: Memory, work: Work): Memory {
    Memory(m.accounts[work.sender.id := work.sender][work.receiver.id := work.receiver],
           m.transactions[work.tx.id := work.tx], m.index[work.tx.key := work.tx.id])
  }

  function Collected(work: Work): Work {
    Work(work.tx.(pending := []), work.sender.(pending := []), work.receiver.(pending := []), work.failure)
  }

  function MemorySettled(m: Memory, work: Work): MemoryOutcome {
    match work.failure
    case Some(e) => MemoryOutcome(MemoryAfter(m, work), Raised(e), [])
    case None =>
      MemoryOutcome(MemoryAfter(m, Collected(work)), Returned(DtoOf(work.tx)),
                    AsOutbox(work.sender.pending) + AsOutbox(work.receiver.pending)
                    + TransactionMessages(work.tx.pending))
  }

  /** What the domain calls make of the stored aggregates, or why it does not come to that. */
  function MemoryWork(m: Memory, cmd: Command, amount: Money, txId: TransactionId, at: Stamps): Result<Work, Error> {
    if cmd.fromId !in m.accounts || cmd.toId !in m.accounts then Err(ResourceNotFound)
    else Prepare(cmd, amount, m.accounts[cmd.fromId], m.accounts[cmd.toId], txId, at)
  }

  /** The transfer from its locks on, both of them free: if the accounts are the same, it is in its own way. */
  function MemoryLocked(m: Memory, cmd: Command, amount: Money, txId: TransactionId, at: Stamps): MemoryOutcome {
    if cmd.fromId == cmd.toId then MemoryOutcome(m, Raised(ConcurrencyConflict), [])
    else
      match MemoryWork(m, cmd, amount, txId, at)
      case Err(e) => MemoryOutcome(m, Raised(e), [])
      case Ok(work) => MemorySettled(m, work)
  }

  /** `initiate` over the in-memory adapter, run alone. */
  function InMemory(m: Memory, cmd: Command, txId: TransactionId, at: Stamps): MemoryOutcome {
    var existing := ByIndex(m.transactions, m.index, cmd.key);
    if existing.Some? then MemoryOutcome(m, Returned(DtoOf(existing.value)), [])
    else
      match CommandMoney(cmd)
      case Err(e) => MemoryOutcome(m, Raised(e), [])
      case Ok(amount) => MemoryLocked(m, cmd, amount, txId, at)
  }

  lemma MoveKeepsIds(tx: TransactionState, sender: AccountState, receiver: AccountState, at: Stamps)
    requires tx.status == Pending
    ensures MoveMoney(tx, sender, receiver, at).Ok?
    ensures var work := MoveMoney(tx, sender, receiver, at).value;
      work.tx.id == tx.id && work.tx.key == tx.key && work.sender.id == sender.id && work.receiver.id == receiver.id
  {
    MoveMoneyMeans(tx, sender, receiver, at);
  }

  /**
    What a request that gets to the domain calls hands to the bus, and what its three
    stored objects still have pending. If the transfer goes through: what was pending in
    the sender, its debit, what was pending in the receiver, its credit, the three
    events of the transaction, and nothing stays pending. If it fails: nothing, and
    everything stays pending, the debit included if there was one.
  */
  lemma InMemoryTells(m: Memory, cmd: Command, txId: TransactionId, at: Stamps)
    requires ByIndex(m.transactions, m.index, cmd.key).None? && CommandMoney(cmd).Ok?
    requires cmd.currency.Some? && cmd.amount.Finite? && 0 < Rounded(cmd.amount) < COEFFICIENT_LIMIT
    requires cmd.fromId != cmd.toId && cmd.fromId in m.accounts && cmd.toId in m.accounts
    requires m.accounts[cmd.fromId].id == cmd.fromId && m.accounts[cmd.toId].id == cmd.toId
    ensures var done, amount := InMemory(m, cmd, txId, at), Money(Rounded(cmd.amount), cmd.currency.value);
      var sender, receiver := m.accounts[cmd.fromId], m.accounts[cmd.toId];
      && cmd.fromId in done.memory.accounts && cmd.toId in done.memory.accounts && txId in done.memory.transactions
      && var paid, got, tx := done.memory.accounts[cmd.fromId], done.memory.accounts[cmd.toId],
                              done.memory.transactions[txId];
      if CanPay(sender, amount) && CanReceive(receiver, amount)
      then
        && done.response.Returned? && paid.pending == [] && got.pending == [] && tx.pending == []
        && done.published
           == AsOutbox(sender.pending)
              + [OfAccount(BalanceDebited(cmd.fromId, txId, amount.cents, amount.currency,
                                          sender.balance.cents - amount.cents))]
              + AsOutbox(receiver.pending)
              + [OfAccount(BalanceCredited(cmd.toId, txId, amount.cents, amount.currency,
                                           receiver.balance.cents + amount.cents))]
              + [OfTransaction(TransactionInitiated(txId, cmd.fromId, cmd.toId, amount, cmd.key)),
                 OfTransaction(TransactionProcessing(txId, cmd.fromId, cmd.toId, amount)),
                 OfTransaction(TransactionCompleted(txId, cmd.fromId, cmd.toId, amount))]
      else
        && done.response.Raised? && done.published == [] && got.pending == receiver.pending
        && tx.failureCode.Some? && tx.failureReason.Some?
        && tx.pending == [TransactionInitiated(txId, cmd.fromId, cmd.toId, amount, cmd.key),
                          TransactionProcessing(txId, cmd.fromId, cmd.toId, amount),
                          TransactionFailed(txId, cmd.fromId, cmd.toId, amount, tx.failureCode.value,
                                            tx.failureReason.value, true)]
        && paid.pending == sender.pending
                           + (if CanPay(sender, amount)
                              then [BalanceDebited(cmd.fromId, txId, amount.cents, amount.currency,
                                                   sender.balance.cents - amount.cents)]
                              else [])
  {
    hide CommandMoney, MoveMoney, Rounded, AsOutbox, TransactionMessages;
    CommandMoneyMeans(cmd);
    var amount := CommandMoney(cmd).value;
    var sender, receiver := m.accounts[cmd.fromId], m.accounts[cmd.toId];
    InitiateMeans(txId, cmd.fromId, cmd.toId, amount, cmd.key, Transfer, at.created, at.touched);
    var tx := Initiated(txId, cmd.fromId, cmd.toId, amount, cmd.key, Transfer, at.created, at.touched).value;
    MoveMoneyMeans(tx, sender, receiver, at);
    if CanPay(sender, amount) && CanReceive(receiver, amount) {
      ToldTogether(sender.pending, DebitOf(sender, tx), receiver.pending, CreditOf(receiver, tx),
                   MoveMoney(tx, sender, receiver, at).value.tx.pending);
    }
  }

  lemma ToldTogether(one: seq<AccountEvent>, d: AccountEvent, other: seq<AccountEvent>, c: AccountEvent,
                     events: seq<TransactionEvent>)
    requires |events| == 3
    ensures AsOutbox(one + [d]) + AsOutbox(other + [c]) + TransactionMessages(events)
         == AsOutbox(one) + [OfAccount(d)] + AsOutbox(other) + [OfAccount(c)]
            + [OfTransaction(events[0]), OfTransaction(events[1]), OfTransaction(events[2])]
  {
    assert AsOutbox(one + [d]) == AsOutbox(one) + [OfAccount(d)];
    assert AsOutbox(other + [c]) == AsOutbox(other) + [OfAccount(c)];
  }

  class InMemoryTransferService {
    const accounts: InMemoryAccountRepository
    const transactions: InMemoryTransactionRepository
    const lock: InMemoryLockManager
    const bus: EventBus

    constructor (accounts: InMemoryAccountRepository, transactions: InMemoryTransactionRepository,
                 lock: InMemoryLockManager, bus: EventBus)
      ensures this.accounts == accounts && this.transactions == transactions && this.lock == lock && this.bus == bus
    {
      this.accounts, this.transactions, this.lock, this.bus := accounts, transactions, lock, bus;
    }

    ghost predicate Valid()
      reads this, accounts`store, transactions, accounts.store.Values`id, transactions.store.Values`id
    {
      && transactions.Valid()
      && (forall a :: a in accounts.store ==> accounts.store[a].id == a)
      && (forall t :: t in transactions.store ==> transactions.store[t].id == t)
    }

    ghost function Accounts(): map<AccountId, AccountState>
      reads this, accounts`store, accounts.store.Values
    {
      map a | a in accounts.store :: accounts.store[a].State()
    }

    ghost function Transactions(): map<TransactionId, TransactionState>
      reads this, transactions, transactions.store.Values
    {
      map t | t in transactions.store :: transactions.store[t].State()
    }

    ghost function Contents(): Memory
      reads this, accounts`store, transactions, accounts.store.Values, transactions.store.Values
    {
      Memory(Accounts(), Transactions(), transactions.byIdempotency)
    }

    /** This very object is the transaction stored under its id, and its key leads to it. */
    ghost predicate IsSaved(tx: Transaction)
      reads this, transactions`store, transactions`byIdempotency, tx`id, tx`key
    {
      && tx.id in transactions.store && transactions.store[tx.id] == tx
      && tx.key in transactions.byIdempotency && transactions.byIdempotency[tx.key] == tx.id
    }

    /** This very object is the account stored under its id. */
    ghost predicate IsStored(account: Account)
      reads this, accounts`store, account`id
    {
      account.id in accounts.store && accounts.store[account.id] == account
    }

    /** Moves the money between two stored accounts: their new states are in the store at once. */
    method MoveStored(tx: Transaction, sender: Account, receiver: Account, at: Stamps) returns (failure: Option<Error>)
      requires Valid() && IsStored(sender) && IsStored(receiver) && sender != receiver
      requires tx.status == Pending && tx.id !in transactions.store
      modifies tx, sender, receiver
      ensures Valid() && IsStored(sender) && IsStored(receiver) && tx.id == old(tx.id)
      ensures MoveMoney(old(tx.State()), old(sender.State()), old(receiver.State()), at)
           == Ok(Work(tx.State(), sender.State(), receiver.State(), failure))
      ensures Accounts()
           == MemoryAfter(old(Contents()), Work(tx.State(), sender.State(), receiver.State(), failure)).accounts
      ensures Transactions() == old(Transactions())
    {
      hide MoveMoney, StoreAfter, IndexAfter;
      MoveKeepsIds(tx.State(), sender.State(), receiver.State(), at);
      failure := TransferService.Move(tx, sender, receiver, at);
    }

    /** `transactions.save` and what it does to the store of values. */
    method SaveStored(tx: Transaction)
      requires Valid()
      modifies transactions
      ensures Valid() && accounts.store == old(accounts.store) && Accounts() == old(Accounts())
      ensures IsSaved(tx)
      ensures Transactions() == old(Transactions())[tx.id := tx.State()]
      ensures transactions.byIdempotency == old(transactions.byIdempotency)[tx.key := tx.id]
    {
      hide StoreAfter, IndexAfter;
      transactions.Save(tx);
    }

    /** Moves the money and saves the transaction, on either path. */
    method Settle(tx: Transaction, sender: Account, receiver: Account, at: Stamps) returns (failure: Option<Error>)
      requires Valid() && IsStored(sender) && IsStored(receiver) && sender != receiver
      requires tx.status == Pending && tx.id !in transactions.store
      modifies tx, sender, receiver, transactions
      ensures Valid() && IsStored(sender) && IsStored(receiver)
      ensures IsSaved(tx)
      ensures MoveMoney(old(tx.State()), old(sender.State()), old(receiver.State()), at)
           == Ok(Work(tx.State(), sender.State(), receiver.State(), failure))
      ensures Contents() == MemoryAfter(old(Contents()), Work(tx.State(), sender.State(), receiver.State(), failure))
    {
      hide MoveMoney, Accounts, Transactions, Valid;
      failure := MoveStored(tx, sender, receiver, at);
      SaveStored(tx);
    }

    /** `get_with_lock` for both, each with its check for a missing account. */
    method LoadBoth(cmd: Command) returns (sender: Account?, receiver: Account?)
      requires Valid()
      modifies accounts`seen
      ensures Valid() && Contents() == old(Contents())
      ensures if cmd.fromId !in Contents().accounts || cmd.toId !in Contents().accounts
              then sender == null || receiver == null
              else
                && sender != null && receiver != null && IsStored(sender) && IsStored(receiver)
                && sender.id == cmd.fromId && sender.State() == Contents().accounts[cmd.fromId]
                && receiver.id == cmd.toId && receiver.State() == Contents().accounts[cmd.toId]
    {
      hide StoreAfter, IndexAfter;
      receiver := null;
      sender := accounts.Get(cmd.fromId);
      if sender != null {
        receiver := accounts.Get(cmd.toId);
      }
    }

    /** Under the locks: load, move, save - or raise. What has been moved stays moved. */
    method RunLocked(cmd: Command, amount: Money, txId: TransactionId, at: Stamps)
      returns (response: Response, sender: Account?, receiver: Account?, tx: Transaction?)
      requires Valid() && txId !in transactions.store && cmd.fromId != cmd.toId
      modifies accounts`seen, transactions, accounts.store.Values
      ensures Valid() && accounts.store == old(accounts.store) && (tx != null ==> fresh(tx))
      ensures match MemoryWork(old(Contents()), cmd, amount, txId, at)
              case Err(e) => response == Raised(e) && Contents() == old(Contents())
              case Ok(work) =>
                && Are(sender, receiver, tx, work) && Contents() == MemoryAfter(old(Contents()), work)
                && response == (if work.failure.Some? then Raised(work.failure.value) else Returned(DtoOf(work.tx)))
    {
      hide MoveMoney, Valid, Contents, MemoryAfter;
      tx := null;
      sender, receiver := LoadBoth(cmd);
      if sender == null || receiver == null {
        return Raised(ResourceNotFound), sender, receiver, null;
      }
      var initiated := Transaction.Initiate(txId, cmd.fromId, cmd.toId, amount, cmd.key, Transfer,
                                              at.created, at.touched);
      if initiated.Err? {
        return Raised(initiated.error), sender, receiver, null;
      }
      tx := initiated.value;
      var failure := Settle(tx, sender, receiver, at);
      response := if failure.Some? then Raised(failure.value) else Returned(TransferService.DtoOfTransaction(tx));
    }

    /** These stored objects are in the states the work says. */
    ghost predicate Are(sender: Account?, receiver: Account?, tx: Transaction?, work: Work)
      reads this, accounts`store, transactions, sender, receiver, tx
    {
      && sender != null && receiver != null && tx != null && sender != receiver
      && IsStored(sender) && IsStored(receiver) && IsSaved(tx)
      && work == Work(tx.State(), sender.State(), receiver.State(), work.failure)
    }

    /** Collecting the events empties the stored objects' lists. */
    method PublishStored(sender: Account, receiver: Account, tx: Transaction)
      requires Valid() && IsStored(sender) && IsStored(receiver) && sender != receiver && IsSaved(tx)
      modifies bus, sender`domainEvents, receiver`domainEvents, tx`domainEvents
      ensures Valid()
      ensures sender.State() == old(sender.State()).(pending := [])
      ensures receiver.State() == old(receiver.State()).(pending := [])
      ensures tx.State() == old(tx.State()).(pending := [])
      ensures Accounts() == old(Accounts())[sender.id := sender.State()] + map[receiver.id := receiver.State()]
      ensures Transactions() == old(Transactions())[tx.id := tx.State()]
      ensures bus.published
           == old(bus.published) + (AsOutbox(old(sender.domainEvents)) + AsOutbox(old(receiver.domainEvents))
                                    + TransactionMessages(old(tx.domainEvents)))
    {
      hide AsOutbox, TransactionMessages, StoreAfter, IndexAfter;
      TransferService.PublishEvents(bus, sender, receiver, tx);
    }

    method Publish(sender: Account, receiver: Account, tx: Transaction, ghost work: Work)
      requires Valid() && Are(sender, receiver, tx, work)
      modifies bus, sender`domainEvents, receiver`domainEvents, tx`domainEvents
      ensures Valid() && Contents() == MemoryAfter(old(Contents()), Collected(work))
      ensures bus.published == old(bus.published) + (AsOutbox(work.sender.pending) + AsOutbox(work.receiver.pending)
                                                     + TransactionMessages(work.tx.pending))
    {
      hide AsOutbox, TransactionMessages, Valid, Accounts, Transactions;
      PublishStored(sender, receiver, tx);
    }

    method LookUp(key: IdempotencyKey) returns (r: Option<Transaction>)
      requires Valid()
      ensures match ByIndex(Contents().transactions, Contents().index, key)
              case None => r == None
              case Some(t) => r.Some? && r.value.State() == t
    {
      hide StoreAfter, IndexAfter;
      r := transactions.GetByIdempotencyKey(key);
      ScanIsLookup(transactions.saves, key, r);
    }

    /** The request has its answer by this meaning, or somebody else has one of its locks and nothing has changed. */
    twostate predicate Answered(cmd: Command, done: MemoryOutcome, response: Response)
      reads this, accounts`store, transactions, accounts.store.Values, transactions.store.Values, bus
    {
      || (&& response == done.response && Contents() == done.memory
          && bus.published == old(bus.published) + done.published)
      || (&& response == Raised(ConcurrencyConflict) && Contents() == old(Contents())
          && bus.published == old(bus.published)
          && (cmd.fromId in old(lock.held) || cmd.toId in old(lock.held)))
    }

    /** The lock bracket of `initiate`. */
    method RunInBracket(cmd: Command, amount: Money, txId: TransactionId, at: Stamps)
      returns (entered: bool, response: Response, sender: Account?, receiver: Account?, tx: Transaction?)
      requires Valid() && txId !in transactions.store
      modifies accounts`seen, transactions, accounts.store.Values, lock
      ensures Valid() && accounts.store == old(accounts.store) && (tx != null ==> fresh(tx))
      ensures lock.held == old(lock.held)
      ensures entered <==> cmd.fromId != cmd.toId && cmd.fromId !in old(lock.held) && cmd.toId !in old(lock.held)
      ensures !entered ==> response == Raised(ConcurrencyConflict) && Contents() == old(Contents())
      ensures entered ==>
                match MemoryWork(old(Contents()), cmd, amount, txId, at)
                case Err(e) => response == Raised(e) && Contents() == old(Contents())
                case Ok(work) =>
                  && Are(sender, receiver, tx, work) && Contents() == MemoryAfter(old(Contents()), work)
                  && response == (if work.failure.Some? then Raised(work.failure.value) else Returned(DtoOf(work.tx)))
    {
      hide MemoryWork, MemoryAfter, Valid, Contents, Are;
      var keys := SortedKeys(cmd);
      var conflict, acquired := lock.Enter(keys);
      TwoKeys(old(lock.held), cmd, keys);
      entered := conflict.None?;
      if !entered {
        return false, Raised(ConcurrencyConflict), null, null, null;
      }
      response, sender, receiver, tx := RunLocked(cmd, amount, txId, at);
      lock.Exit(acquired);
    }

    /** The part of `initiate` from taking the locks on. */
    method RunUnderLocks(cmd: Command, amount: Money, txId: TransactionId, at: Stamps) returns (response: Response)
      requires Valid() && txId !in transactions.store
      modifies accounts`seen, transactions, accounts.store.Values, lock, bus
      ensures Valid() && lock.held == old(lock.held)
      ensures Answered(cmd, MemoryLocked(old(Contents()), cmd, amount, txId, at), response)
    {
      hide MemoryWork, MemoryAfter, AsOutbox, TransactionMessages, Valid, Contents;
      ghost var m := Contents();
      var entered, sender, receiver, tx;
      entered, response, sender, receiver, tx := RunInBracket(cmd, amount, txId, at);
      if response.Returned? {
        ghost var work := MemoryWork(m, cmd, amount, txId, at).value;
        assert accounts.store[sender.id] in accounts.store.Values;
        assert accounts.store[receiver.id] in accounts.store.Values;
        AfterTwice(m, work);
        Publish(sender, receiver, tx, work);
      }
    }

    /**
      `initiate`. The stores, the answer and the bus are as the meaning in memory
      says; or somebody else has one of the two locks, and nothing changes. The locks
      held afterwards are those held before.
    */
    method Initiate(cmd: Command, txId: TransactionId, at: Stamps) returns (response: Response)
      requires Valid() && txId !in transactions.store
      modifies accounts`seen, transactions, accounts.store.Values, lock, bus
      ensures Valid() && lock.held == old(lock.held)
      ensures Answered(cmd, InMemory(old(Contents()), cmd, txId, at), response)
    {
      hide CommandMoney, MemoryLocked, Valid, Contents;
      var existing := LookUp(cmd.key);
      if existing.Some? {
        return Returned(TransferService.DtoOfTransaction(existing.value));
      }
      var amount := CommandMoney(cmd);
      if amount.Err? {
        return Raised(amount.error);
      }
      response := RunUnderLocks(cmd, amount.value, txId, at);
    }

    /** The sorted keys are distinct exactly if the accounts are, and whoever else holds one of them is in the way. */
    lemma TwoKeys(held: set<AccountId>, cmd: Command, keys: seq<AccountId>)
      requires keys == SortedKeys(cmd)
      ensures Distinct(keys) <==> cmd.fromId != cmd.toId
      ensures held !! KeySet(keys) <==> cmd.fromId !in held && cmd.toId !in held
      ensures held !! KeySet(keys) ==> held + KeySet(keys) - KeySet(keys) == held
    {
      assert keys[0] in KeySet(keys) && keys[1] in KeySet(keys);
    }
  }

  lemma AfterTwice(m: Memory, work: Work)
    requires work.sender.id != work.receiver.id
    ensures MemoryAfter(MemoryAfter(m, work), Collected(work)) == MemoryAfter(m, Collected(work))
  {
  }
}
