/**
  The two adapters side by side: the same operations run against the committed
  tables and against the in-memory stores, and exactly when the two part ways.
*/
module AdapterEquivalence {
  import opened Prelude
  import opened Domain
  import opened MoneyValues
  import opened Accounts
  import opened Transactions
  import opened Mappers
  import opened TransferSpec
  import opened Books
  import opened Replay
  import opened InMemoryStores
  import opened ReplayExamples
  import opened Sums

  // ----- The stores hold what the tables hold ---------------------------------------

  /** Pending events are all that a stored aggregate has over its row. */
  ghost predicate SameAccounts(db: Db, m: Memory) {
    && db.accounts.Keys == m.accounts.Keys
    && forall a :: a in db.accounts ==> AccountToDomain(db.accounts[a]) == Ok(m.accounts[a].(pending := []))
  }

  ghost predicate SameTransactions(db: Db, m: Memory) {
    && db.transactions.Keys == m.transactions.Keys
    && forall t :: t in db.transactions ==> db.transactions[t] == TransactionToRow(m.transactions[t])
  }

  /** The index leads from each used key to a transaction with that key. */
  ghost predicate SameKeys(db: Db, m: Memory) {
    && (forall key :: key in m.index <==> KeyUsed(db, key))
    && (forall key :: key in m.index ==> m.index[key] in m.transactions && m.transactions[m.index[key]].key == key)
  }

  ghost predicate Same(db: Db, m: Memory) {
    SameAccounts(db, m) && SameTransactions(db, m) && SameKeys(db, m)
  }

  // ----- One transfer -----------------------------------------------------------------

  /** Some column is too small for what the request would write. */
  ghost predicate TooBig(db: Db, cmd: Command)
    requires Reaches(db, cmd)
  {
    var amount := CommandMoney(cmd).value;
    var sender, receiver := AccountToDomain(db.accounts[cmd.fromId]), AccountToDomain(db.accounts[cmd.toId]);
    || !FitsColumn(100 * amount.cents) || |cmd.key| > 255
    || (&& sender.Ok? && receiver.Ok? && CanPay(sender.value, amount) && CanReceive(receiver.value, amount)
        && !FitsColumn(100 * (receiver.value.balance.cents + amount.cents)))
  }

  /** The adapters treat the request differently. */
  ghost predicate Diverges(db: Db, cmd: Command) {
    Reaches(db, cmd) && (OnlyCreditFails(db, cmd) || TooBig(db, cmd))
  }

  /** The domain calls take no notice of events that were pending before. */
  lemma PendingIsIgnored(tx: TransactionState, sender: AccountState, receiver: AccountState, at: Stamps)
    requires tx.status == Pending
    ensures var clean := MoveMoney(tx, sender.(pending := []), receiver.(pending := []), at);
      var work := MoveMoney(tx, sender, receiver, at);
      && clean.Ok? && work.Ok?
      && work.value.tx == clean.value.tx && work.value.failure == clean.value.failure
      && work.value.sender.(pending := []) == clean.value.sender.(pending := [])
      && work.value.receiver.(pending := []) == clean.value.receiver.(pending := [])
  {
    hide Subtract, Add;
  }

  /** A key that is used gets the same stored transaction back. */
  lemma RepeatAgrees(db: Db, m: Memory, key: IdempotencyKey)
    requires Same(db, m) && KeysUnique(db.transactions) && KeyUsed(db, key)
    ensures ByIndex(m.transactions, m.index, key).Some?
    ensures Stored(RowOfKey(db, key)) == Returned(DtoOf(ByIndex(m.transactions, m.index, key).value))
  {
    var t := m.index[key];
    assert t in db.transactions && db.transactions[t].key == key;
    TransactionRoundTrip(m.transactions[t]);
  }

  /** The work in memory and the work on the rows. */
  lemma WorksAgree(db: Db, m: Memory, cmd: Command, txId: TransactionId, at: Stamps)
    returns (work: Work, stored: Work)
    requires SameAccounts(db, m) && Reaches(db, cmd)
    requires AccountToDomain(db.accounts[cmd.fromId]).Ok? && AccountToDomain(db.accounts[cmd.toId]).Ok?
    ensures var amount := CommandMoney(cmd).value;
      && Prepare(cmd, amount, AccountToDomain(db.accounts[cmd.fromId]).value,
                 AccountToDomain(db.accounts[cmd.toId]).value, txId, at) == Ok(work)
      && MemoryWork(m, cmd, amount, txId, at) == Ok(stored)
    ensures stored.tx == work.tx && stored.failure == work.failure
    ensures stored.sender.(pending := []) == work.sender.(pending := [])
    ensures stored.receiver.(pending := []) == work.receiver.(pending := [])
  {
    hide MoveMoney, AccountToDomain, CommandMoney;
    var amount := CommandMoney(cmd).value;
    var tx := Initiated(txId, cmd.fromId, cmd.toId, amount, cmd.key, Transfer, at.created, at.touched).value;
    PendingIsIgnored(tx, m.accounts[cmd.fromId], m.accounts[cmd.toId], at);
    work := MoveMoney(tx, m.accounts[cmd.fromId].(pending := []), m.accounts[cmd.toId].(pending := []), at).value;
    stored := MoveMoney(tx, m.accounts[cmd.fromId], m.accounts[cmd.toId], at).value;
  }

  /** These two pieces of work store the same, whatever is pending in the second. */
  ghost predicate StoreAlike(work: Work, stored: Work) {
    && TransactionToRow(stored.tx) == TransactionToRow(work.tx) && stored.failure == work.failure
    && stored.sender.(pending := []) == work.sender.(pending := [])
    && stored.receiver.(pending := []) == work.receiver.(pending := [])
  }

  lemma CompletedStaysSame(db: Db, m: Memory, work: Work, stored: Work, sender: AccountState, receiver: AccountState)
    requires SameAccounts(db, m) && StoreAlike(work, stored) && work.failure.None?
    requires sender.id in db.accounts && AccountToDomain(db.accounts[sender.id]) == Ok(sender)
    requires receiver.id in db.accounts && AccountToDomain(db.accounts[receiver.id]) == Ok(receiver)
    requires sender.id != receiver.id
    requires work.sender == sender.(balance := work.sender.balance, updatedAt := work.sender.updatedAt,
                                    pending := work.sender.pending)
    requires work.receiver == receiver.(balance := work.receiver.balance, updatedAt := work.receiver.updatedAt,
                                        pending := work.receiver.pending)
    ensures SameAccounts(Written(db, work), MemoryAfter(m, stored))
  {
    UpdatedLoads(db.accounts[sender.id], work.sender);
    UpdatedLoads(db.accounts[receiver.id], work.receiver);
  }

  /** An updated row loads as what it was updated from. */
  lemma UpdatedLoads(row: AccountRow, a: AccountState)
    requires a.id == row.id && a.ownerId == row.ownerId && a.number == row.number && a.createdAt == row.createdAt
    ensures AccountToDomain(UpdatedAccountRow(row, a)) == Ok(a.(pending := []))
  {
    ColumnKeepsCents(a.balance);
  }

  lemma SavedStaysSame(db: Db, m: Memory, work: Work, stored: Work)
    requires SameTransactions(db, m) && SameKeys(db, m) && StoreAlike(work, stored)
    requires work.sender.id in db.accounts && work.receiver.id in db.accounts
    requires work.tx.id !in db.transactions
    ensures SameTransactions(Written(db, work), MemoryAfter(m, stored))
    ensures SameKeys(Written(db, work), MemoryAfter(m, stored))
  {
    var db', m' := Written(db, work), MemoryAfter(m, stored);
    forall key
      ensures key in m'.index <==> KeyUsed(db', key)
    {
      if KeyUsed(db, key) {
        var t :| t in db.transactions && db.transactions[t].key == key;
        assert db'.transactions[t].key == key;
      }
      if key == work.tx.key {
        assert db'.transactions[work.tx.id].key == key;
      }
    }
  }

  /** What the rows come to, and whether the database takes it. */
  lemma RowsWorkMeans(db: Db, openings: Openings, cmd: Command, txId: TransactionId, at: Stamps, work: Work)
    requires Tidy(db, openings) && Reaches(db, cmd) && txId !in db.transactions
    requires AccountToDomain(db.accounts[cmd.fromId]).Ok? && AccountToDomain(db.accounts[cmd.toId]).Ok?
    requires Prepare(cmd, CommandMoney(cmd).value, AccountToDomain(db.accounts[cmd.fromId]).value,
                     AccountToDomain(db.accounts[cmd.toId]).value, txId, at) == Ok(work)
    ensures var amount := CommandMoney(cmd).value;
      var sender := AccountToDomain(db.accounts[cmd.fromId]).value;
      var receiver := AccountToDomain(db.accounts[cmd.toId]).value;
      && (CommitError(db, work).None? <==> !TooBig(db, cmd))
      && (work.failure.None? <==> CanPay(sender, amount) && CanReceive(receiver, amount))
      && work.tx.id == txId && work.tx.key == cmd.key
      && work.sender == sender.(balance := work.sender.balance, updatedAt := work.sender.updatedAt,
                                pending := work.sender.pending)
      && work.receiver == receiver.(balance := work.receiver.balance, updatedAt := work.receiver.updatedAt,
                                    pending := work.receiver.pending)
      && (if CanPay(sender, amount)
          then work.sender.balance == Money(sender.balance.cents - amount.cents, sender.balance.currency)
          else work.sender == sender)
      && (work.failure.Some? ==> work.receiver == receiver)
  {
    hide MoveMoney, AccountToDomain, CommandMoney, CommitError;
    var amount := CommandMoney(cmd).value;
    LoadAll(db, openings, cmd);
    var sender, receiver := LoadedFrom(db.accounts[cmd.fromId]), LoadedFrom(db.accounts[cmd.toId]);
    var tx := Initiated(txId, cmd.fromId, cmd.toId, amount, cmd.key, Transfer, at.created, at.touched).value;
    MoveMoneyMeans(tx, sender, receiver, at);
    CommitErrorMeans(db, work);
  }

  /** A request that does not get as far as the domain calls changes nothing in either adapter, with one answer. */
  lemma TurnedAwayAlike(db: Db, openings: Openings, m: Memory, cmd: Command, txId: TransactionId, at: Stamps)
    requires Tidy(db, openings) && Same(db, m) && !Reaches(db, cmd)
    ensures Sequential(db, cmd, txId, at).db == db && InMemory(m, cmd, txId, at).memory == m
    ensures Sequential(db, cmd, txId, at).response == InMemory(m, cmd, txId, at).response
  {
    hide MoveMoney, AccountToDomain, CommandMoney;
    LoadAll(db, openings, cmd);
    if KeyUsed(db, cmd.key) {
      RepeatAgrees(db, m, cmd.key);
    }
  }

  /** What either adapter does with a request that gets there. */
  lemma ReachedMeans(db: Db, openings: Openings, m: Memory, cmd: Command, txId: TransactionId, at: Stamps)
    returns (work: Work, stored: Work)
    requires Tidy(db, openings) && Same(db, m) && Reaches(db, cmd) && txId !in db.transactions
    requires AccountToDomain(db.accounts[cmd.fromId]).Ok? && AccountToDomain(db.accounts[cmd.toId]).Ok?
    ensures Prepare(cmd, CommandMoney(cmd).value, AccountToDomain(db.accounts[cmd.fromId]).value,
                    AccountToDomain(db.accounts[cmd.toId]).value, txId, at) == Ok(work)
    ensures StoreAlike(work, stored) && StoreAlike(work, Collected(stored))
    ensures work.sender.id == cmd.fromId && work.receiver.id == cmd.toId
    ensures Sequential(db, cmd, txId, at) == Committed(db, work)
    ensures InMemory(m, cmd, txId, at) == MemorySettled(m, stored)
    ensures DtoOf(stored.tx) == DtoOf(work.tx) && stored.failure == work.failure
  {
    hide MoveMoney, AccountToDomain, CommandMoney, CommitError, Written, MemoryAfter;
    work, stored := WorksAgree(db, m, cmd, txId, at);
    RowsWorkMeans(db, openings, cmd, txId, at, work);
    RowIdsKept(db, openings, cmd);
    assert ByIndex(m.transactions, m.index, cmd.key).None?;
  }

  lemma RowIdsKept(db: Db, openings: Openings, cmd: Command)
    requires Tidy(db, openings) && cmd.fromId in db.accounts && cmd.toId in db.accounts
    ensures AccountToDomain(db.accounts[cmd.fromId]).Ok? && AccountToDomain(db.accounts[cmd.toId]).Ok?
    ensures AccountToDomain(db.accounts[cmd.fromId]).value.id == cmd.fromId
    ensures AccountToDomain(db.accounts[cmd.toId]).value.id == cmd.toId
  {
    LoadTidy(db.accounts[cmd.fromId]);
    LoadTidy(db.accounts[cmd.toId]);
  }

  /** A request the database has no room for stays in memory only. */
  lemma TooBigParts(db: Db, m: Memory, work: Work, stored: Work)
    requires Same(db, m) && StoreAlike(work, stored) && work.tx.id !in db.transactions
    ensures !Same(db, MemoryAfter(m, stored)) && !Same(db, MemoryAfter(m, Collected(stored)))
  {
    assert work.tx.id in MemoryAfter(m, stored).transactions;
    assert work.tx.id in MemoryAfter(m, Collected(stored)).transactions;
  }

  lemma FailedStaysSameIff(db: Db, m: Memory, work: Work, stored: Work, sender: AccountState, receiver: AccountState)
    requires SameAccounts(db, m) && StoreAlike(work, stored) && work.failure.Some?
    requires sender.id in db.accounts && AccountToDomain(db.accounts[sender.id]) == Ok(sender)
    requires receiver.id in db.accounts && AccountToDomain(db.accounts[receiver.id]) == Ok(receiver)
    requires sender.id != receiver.id && work.sender.id == sender.id && work.receiver == receiver
    requires work.sender == sender || work.sender.balance.cents < sender.balance.cents
    ensures SameAccounts(Written(db, work), MemoryAfter(m, stored)) <==> work.sender == sender
  {
    hide AccountToDomain;
    var m' := MemoryAfter(m, stored);
    assert m'.accounts[sender.id] == stored.sender && m'.accounts[receiver.id] == stored.receiver;
    assert stored.sender.balance == stored.sender.(pending := []).balance == work.sender.balance;
    LoadedHasNothingPending(db.accounts[sender.id]);
    LoadedHasNothingPending(db.accounts[receiver.id]);
    assert m'.accounts.Keys == m.accounts.Keys;
  }

  lemma LoadedHasNothingPending(row: AccountRow)
    ensures AccountToDomain(row).Ok? ==> AccountToDomain(row).value.(pending := []) == AccountToDomain(row).value
  {
  }

  lemma ReachedAgreesIff(db: Db, openings: Openings, m: Memory, cmd: Command, txId: TransactionId, at: Stamps)
    requires Tidy(db, openings) && Same(db, m) && Reaches(db, cmd) && txId !in db.transactions
    ensures Same(Sequential(db, cmd, txId, at).db, InMemory(m, cmd, txId, at).memory) <==> !Diverges(db, cmd)
    ensures !TooBig(db, cmd) ==> Sequential(db, cmd, txId, at).response == InMemory(m, cmd, txId, at).response
  {
    hide Sequential, InMemory, AccountToDomain, CommandMoney, CommitError, Written, MemoryAfter, SameTransactions,
         SameKeys, SameAccounts, Prepare, StoreAlike, TooBig;
    RowIdsKept(db, openings, cmd);
    var work, stored := ReachedMeans(db, openings, m, cmd, txId, at);
    RowsWorkMeans(db, openings, cmd, txId, at, work);
    var sender := AccountToDomain(db.accounts[cmd.fromId]).value;
    var receiver := AccountToDomain(db.accounts[cmd.toId]).value;
    if TooBig(db, cmd) {
      TooBigParts(db, m, work, stored);
    } else if work.failure.None? {
      CompletedStaysSame(db, m, work, Collected(stored), sender, receiver);
      SavedStaysSame(db, m, work, Collected(stored));
    } else {
      FailedStaysSameIff(db, m, work, stored, sender, receiver);
      SavedStaysSame(db, m, work, stored);
    }
  }

  /**
    The adapters agree on a transfer - same balances, statuses, rows, keys and answer -
    exactly unless only the credit fails or a column is too small.
  */
  lemma TransferAgreesIff(db: Db, openings: Openings, m: Memory, cmd: Command, txId: TransactionId, at: Stamps)
    requires Tidy(db, openings) && Same(db, m) && txId !in db.transactions
    ensures Same(Sequential(db, cmd, txId, at).db, InMemory(m, cmd, txId, at).memory) <==> !Diverges(db, cmd)
    ensures !Diverges(db, cmd) ==> Sequential(db, cmd, txId, at).response == InMemory(m, cmd, txId, at).response
  {
    hide Sequential, InMemory, OnlyCreditFails, TooBig, Same, Reaches;
    if Reaches(db, cmd) {
      ReachedAgreesIff(db, openings, m, cmd, txId, at);
    } else {
      TurnedAwayAlike(db, openings, m, cmd, txId, at);
    }
  }

  /** All the money of one currency in the in-memory accounts. */
  function HeldIn(currency: Currency): AccountState -> int {
    (a: AccountState) => if a.balance.currency == currency then a.balance.cents else 0
  }

  /**
    What goes wrong when only the credit fails: the stored sender has been debited
    and nobody credited, so in memory the amount is gone. (The tables keep it:
    `Books.ChangeKeepsConserved`.)
  */
  lemma FailedCreditLosesMoney(db: Db, openings: Openings, m: Memory, cmd: Command, txId: TransactionId, at: Stamps)
    requires Tidy(db, openings) && Same(db, m) && Reaches(db, cmd) && txId !in db.transactions
    requires OnlyCreditFails(db, cmd)
    ensures var amount := CommandMoney(cmd).value;
      var done := InMemory(m, cmd, txId, at);
      && Sum(done.memory.accounts, HeldIn(amount.currency)) == Sum(m.accounts, HeldIn(amount.currency)) - amount.cents
      && done.response.Raised?
  {
    hide InMemory, Committed, AccountToDomain, CommandMoney, CommitError, Prepare, TooBig, Sum, Sequential;
    var work, stored := ReachedMeans(db, openings, m, cmd, txId, at);
    RowsWorkMeans(db, openings, cmd, txId, at, work);
    var amount := CommandMoney(cmd).value;
    SumReplaceTwo(m.accounts, HeldIn(amount.currency), cmd.fromId, stored.sender, cmd.toId, stored.receiver);
    assert stored.sender.balance == stored.sender.(pending := []).balance;
    assert stored.receiver.balance == stored.receiver.(pending := []).balance;
    assert m.accounts[cmd.fromId].balance == m.accounts[cmd.fromId].(pending := []).balance;
    assert m.accounts[cmd.toId].balance == m.accounts[cmd.toId].(pending := []).balance;
  }

  // ----- Whole runs ---------------------------------------------------------------------

  /** What an operation does to the in-memory stores. */
  function MemoryApplied(m: Memory, op: Op): Memory {
    match op
    case TransferOp(cmd, txId, at) => InMemory(m, cmd, txId, at).memory
    case OpenOp(id, ownerId, number, currency, initial, createdAt, updatedAt) =>
      (match Created(id, ownerId, number, currency, initial, createdAt, updatedAt)
       case Err(_) => m
       case Ok(a) => m.(accounts := m.accounts[id := a]))
    case StatusOp(id, status, now) =>
      if id in m.accounts then m.(accounts := m.accounts[id := m.accounts[id].(status := status, updatedAt := now)])
      else m
  }

  const NO_MEMORY: Memory := Memory(map[], map[], map[])

  function MemoryAll(ops: seq<Op>): Memory {
    if ops == [] then NO_MEMORY else MemoryApplied(MemoryAll(ops[..|ops| - 1]), ops[|ops| - 1])
  }

  /** The adapters treat the operation alike. */
  ghost predicate TreatedAlike(db: Db, op: Op) {
    match op
    case TransferOp(cmd, _, _) => !Diverges(db, cmd)
    case OpenOp(id, ownerId, number, currency, initial, createdAt, updatedAt) =>
      var a := Created(id, ownerId, number, currency, initial, createdAt, updatedAt);
      a.Ok? ==> FitsColumn(100 * a.value.balance.cents)
    case StatusOp(_, _, _) => true
  }

  /** Every account is opened under an id no account has yet. */
  ghost predicate FreshAccountIds(ops: seq<Op>) {
    forall i :: 0 <= i < |ops| && ops[i].OpenOp? ==> ops[i].id !in ReplayAll(ops[..i]).accounts
  }

  /** Operations that leave transactions alone keep the two in step there. */
  lemma TransactionsLeftAlone(db: Db, m: Memory, accounts: map<AccountId, AccountRow>,
                              stored: map<AccountId, AccountState>)
    requires Same(db, m)
    ensures SameTransactions(db.(accounts := accounts), m.(accounts := stored))
    ensures SameKeys(db.(accounts := accounts), m.(accounts := stored))
  {
    assert forall key :: KeyUsed(db.(accounts := accounts), key) <==> KeyUsed(db, key);
  }

  lemma OpenAgreesIff(db: Db, m: Memory, op: Op)
    requires Same(db, m) && op.OpenOp? && op.id !in db.accounts
    ensures Same(Applied(db, op), MemoryApplied(m, op)) <==> TreatedAlike(db, op)
  {
    hide AccountToDomain, SameTransactions, SameKeys;
    var a := Created(op.id, op.ownerId, op.number, op.currency, op.initial, op.createdAt, op.updatedAt);
    if a.Ok? {
      AccountRoundTrip(a.value);
      assert op.id in MemoryApplied(m, op).accounts;
      TransactionsLeftAlone(db, m, Applied(db, op).accounts, MemoryApplied(m, op).accounts);
    }
  }

  lemma StatusLoads(row: AccountRow, a: AccountState, status: AccountStatus, now: Time)
    requires AccountToDomain(row) == Ok(a.(pending := []))
    ensures AccountToDomain(row.(status := status, updatedAt := now))
         == Ok(a.(status := status, updatedAt := now).(pending := []))
  {
  }

  lemma StatusAgrees(db: Db, m: Memory, op: Op)
    requires Same(db, m) && op.StatusOp?
    ensures Same(Applied(db, op), MemoryApplied(m, op))
  {
    hide AccountToDomain, SameTransactions, SameKeys;
    if op.id in db.accounts {
      StatusLoads(db.accounts[op.id], m.accounts[op.id], op.status, op.now);
      TransactionsLeftAlone(db, m, Applied(db, op).accounts, MemoryApplied(m, op).accounts);
    }
  }

  lemma OpAgreesIff(db: Db, openings: Openings, m: Memory, op: Op)
    requires Tidy(db, openings) && Same(db, m)
    requires op.TransferOp? ==> op.txId !in db.transactions
    requires op.OpenOp? ==> op.id !in db.accounts
    ensures Same(Applied(db, op), MemoryApplied(m, op)) <==> TreatedAlike(db, op)
  {
    hide Same, Sequential, InMemory, Diverges;
    match op {
      case TransferOp(cmd, txId, at) => TransferAgreesIff(db, openings, m, cmd, txId, at);
      case OpenOp(_, _, _, _, _, _, _) => OpenAgreesIff(db, m, op);
      case StatusOp(_, _, _) => StatusAgrees(db, m, op);
    }
  }

  ghost predicate SameThroughout(ops: seq<Op>) {
    forall i :: 0 <= i <= |ops| ==> Same(ReplayAll(ops[..i]), MemoryAll(ops[..i]))
  }

  ghost predicate AgreeThroughout(ops: seq<Op>) {
    forall i :: 0 <= i < |ops| ==> TreatedAlike(ReplayAll(ops[..i]), ops[i])
  }

  ghost predicate AnsweredAlike(ops: seq<Op>) {
    forall i :: 0 <= i < |ops| ==> OneAnswer(ops, i)
  }

  /**
    Adapter equivalence: over any run the in-memory stores and the committed tables
    hold the same after every operation exactly if no credit ever fails after a
    successful debit and nothing ever outgrows a column; and then every transfer
    gets the same answer from both.
  */
  lemma {:induction false} RunAgreesIff(ops: seq<Op>)
    requires FreshIds(ops) && FreshAccountIds(ops)
    ensures SameThroughout(ops) <==> AgreeThroughout(ops)
    ensures SameThroughout(ops) ==> AnsweredAlike(ops)
  {
    hide Same, TreatedAlike, Sequential, InMemory, ReplayAll, MemoryAll, FreshIds, FreshAccountIds, SameThroughout,
         AgreeThroughout, AnsweredAlike;
    if ops == [] {
      NothingIsSame(ops);
    } else {
      FreshPrefix(ops, |ops| - 1);
      FreshAccountsPrefix(ops, |ops| - 1);
      SameSplits(ops, |ops| - 1);
      AgreeSplits(ops, |ops| - 1);
      RunAgreesIff(ops[..|ops| - 1]);
      if SameThroughout(ops[..|ops| - 1]) {
        LastAgreesIff(ops);
      }
    }
  }

  lemma NothingIsSame(ops: seq<Op>)
    requires ops == []
    ensures SameThroughout(ops) && AgreeThroughout(ops) && AnsweredAlike(ops)
  {
    assert ops[..0] == [];
  }

  lemma FreshAccountsPrefix(ops: seq<Op>, n: nat)
    requires n <= |ops|
    ensures FreshAccountIds(ops) ==> FreshAccountIds(ops[..n])
  {
    hide ReplayAll;
    PrefixOfPrefix(ops, n);
  }

  lemma SameSplits(ops: seq<Op>, n: nat)
    requires |ops| == n + 1
    ensures SameThroughout(ops) <==> SameThroughout(ops[..n]) && Same(ReplayAll(ops), MemoryAll(ops))
  {
    hide Same, ReplayAll, MemoryAll;
    PrefixOfPrefix(ops, n);
    assert ops[..n + 1] == ops;
    forall i | 0 <= i <= n
      ensures Same(ReplayAll(ops[..i]), MemoryAll(ops[..i]))
          <==> Same(ReplayAll(ops[..n][..i]), MemoryAll(ops[..n][..i]))
    {
    }
  }

  lemma AgreeSplits(ops: seq<Op>, n: nat)
    requires |ops| == n + 1
    ensures AgreeThroughout(ops) <==> AgreeThroughout(ops[..n]) && TreatedAlike(ReplayAll(ops[..n]), ops[n])
    ensures AnsweredAlike(ops[..n]) && OneAnswer(ops, n) ==> AnsweredAlike(ops)
  {
    hide TreatedAlike, ReplayAll, MemoryAll, Sequential, InMemory;
    PrefixOfPrefix(ops, n);
    forall i | 0 <= i < n
      ensures TreatedAlike(ReplayAll(ops[..i]), ops[i]) <==> TreatedAlike(ReplayAll(ops[..n][..i]), ops[..n][i])
      ensures OneAnswer(ops, i) <==> OneAnswer(ops[..n], i)
    {
    }
  }

  /** If operation `i` is a transfer, both adapters answer it alike. */
  ghost predicate OneAnswer(ops: seq<Op>, i: nat)
    requires i < |ops|
  {
    ops[i].TransferOp? ==>
      Sequential(ReplayAll(ops[..i]), ops[i].cmd, ops[i].txId, ops[i].at).response
      == InMemory(MemoryAll(ops[..i]), ops[i].cmd, ops[i].txId, ops[i].at).response
  }

  lemma LastAgreesIff(ops: seq<Op>)
    requires FreshIds(ops) && FreshAccountIds(ops) && ops != [] && SameThroughout(ops[..|ops| - 1])
    ensures var n := |ops| - 1;
      && (Same(ReplayAll(ops), MemoryAll(ops)) <==> TreatedAlike(ReplayAll(ops[..n]), ops[n]))
      && (TreatedAlike(ReplayAll(ops[..n]), ops[n]) ==> OneAnswer(ops, n))
  {
    hide Same, Diverges, Sequential, InMemory, InOrder, Applied, MemoryApplied;
    var n := |ops| - 1;
    var before, m := ReplayAll(ops[..n]), MemoryAll(ops[..n]);
    assert ops[..n][..n] == ops[..n];
    assert Same(before, m);
    FreshPrefix(ops, n);
    FreshAccountsPrefix(ops, n);
    TidyAfter(ops[..n]);
    OpAgreesIff(before, OpeningsOf(ops[..n]), m, ops[n]);
    if ops[n].TransferOp? {
      TransferAgreesIff(before, OpeningsOf(ops[..n]), m, ops[n].cmd, ops[n].txId, ops[n].at);
    }
  }

  // ----- An input on which they part ----------------------------------------------------

  /** The equivalence does not hold of all runs: a payment to a frozen account. */
  lemma AdaptersPart()
    ensures FreshIds(TO_FROZEN) && FreshAccountIds(TO_FROZEN) && !SameThroughout(TO_FROZEN)
  {
    hide ReplayAll, Reaches, OnlyCreditFails, TooBig;
    ReplayToFrozen();
    OnlyCreditOfPayFails();
    assert FreshAccountIds(TO_FROZEN) by {
      assert TO_FROZEN[0].id !in EMPTY_DB.accounts;
    }
    assert !TreatedAlike(ReplayAll(TO_FROZEN[..3]), TO_FROZEN[3]);
    RunAgreesIff(TO_FROZEN);
  }
}
