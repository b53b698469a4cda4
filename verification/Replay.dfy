/**
  Running committed operations one after the other from an empty database, and
  what holds of the tables after any such run.
*/
module Replay {
  import opened Prelude
  import opened Decimals
  import opened Domain
  import opened MoneyValues
  import opened Accounts
  import opened Transactions
  import opened Mappers
  import opened TransferSpec
  import opened Books
  import Sums

  /** An account loaded from a tidy row. */
  function LoadedFrom(row: AccountRow): AccountState
    requires WholeCents(row.balance)
  {
    AccountState(row.id, row.ownerId, row.number, Money(row.balance / 100, row.currency), row.status,
                 row.createdAt, row.updatedAt, [])
  }

  lemma LoadTidy(row: AccountRow)
    requires WholeCents(row.balance)
    ensures AccountToDomain(row) == Ok(LoadedFrom(row))
  {
    ColumnKeepsCents(Money(row.balance / 100, row.currency));
  }

  /** The debit and credit messages of a transfer, as the aggregates record them. */
  function DebitOf(a: AccountState, tx: TransactionState): AccountEvent
    requires a.balance.cents >= tx.amount.cents
  {
    BalanceDebited(a.id, tx.id, tx.amount.cents, tx.amount.currency, a.balance.cents - tx.amount.cents)
  }

  function CreditOf(a: AccountState, tx: TransactionState): AccountEvent
    requires a.balance.cents + tx.amount.cents < COEFFICIENT_LIMIT
  {
    BalanceCredited(a.id, tx.id, tx.amount.cents, tx.amount.currency, a.balance.cents + tx.amount.cents)
  }

  predicate CanPay(a: AccountState, amount: Money) {
    a.status == Active && a.balance.currency == amount.currency && amount.cents <= a.balance.cents
  }

  predicate CanReceive(a: AccountState, amount: Money) {
    a.status == Active && a.balance.currency == amount.currency
    && a.balance.cents + amount.cents < COEFFICIENT_LIMIT
  }

  /**
    What the domain calls come to. The transfer completes exactly if the sender can
    pay and the receiver can receive; if only the credit fails, the sender's copy
    has been debited and has recorded it.
  */
  lemma MoveMoneyMeans(tx: TransactionState, sender: AccountState, receiver: AccountState, at: Stamps)
    requires tx.status == Pending
    ensures MoveMoney(tx, sender, receiver, at).Ok?
    ensures var work := MoveMoney(tx, sender, receiver, at).value;
      && (work.failure.None? <==> CanPay(sender, tx.amount) && CanReceive(receiver, tx.amount))
      && SameTransfer(work.tx, tx)
      && work.tx.status == (if work.failure.None? then Completed else Failed) && work.tx.updatedAt == at.finish
      && work.sender == (if !CanPay(sender, tx.amount) then sender
                         else sender.(balance := Money(sender.balance.cents - tx.amount.cents, tx.amount.currency),
                                      updatedAt := at.debit, pending := sender.pending + [DebitOf(sender, tx)]))
      && work.receiver == (if work.failure.Some? then receiver
                           else receiver.(balance := Money(receiver.balance.cents + tx.amount.cents,
                                                           tx.amount.currency),
                                          updatedAt := at.credit,
                                          pending := receiver.pending + [CreditOf(receiver, tx)]))
      && (work.failure.None? ==>
            && work.tx.completedAt == Some(at.finish) && work.tx.failureCode == tx.failureCode
            && work.tx.failureReason == tx.failureReason && work.tx.rollbackRequired == tx.rollbackRequired
            && work.tx.pending == tx.pending + [TransactionProcessing(tx.id, tx.fromId, tx.toId, tx.amount),
                                                TransactionCompleted(tx.id, tx.fromId, tx.toId, tx.amount)])
      && (work.failure.Some? ==>
            && work.tx.failureReason == work.failure && work.tx.rollbackRequired
            && work.tx.failureCode == Some(FailureCode(work.failure.value)) && work.tx.completedAt == tx.completedAt
            && work.tx.pending == tx.pending + [TransactionProcessing(tx.id, tx.fromId, tx.toId, tx.amount),
                                                TransactionFailed(tx.id, tx.fromId, tx.toId, tx.amount,
                                                                  FailureCode(work.failure.value),
                                                                  work.failure.value, true)])
  {
    hide Subtract, Add;
    DebitSucceedsIff(sender, tx.amount, tx.id, at.debit);
    CreditSucceedsIff(receiver, tx.amount, tx.id, at.credit);
  }

  /** The work has failed with this exception, under this code. */
  predicate FailsWith(work: Work, e: Error, code: string) {
    && work.failure == Some(e) && work.tx.status == Failed
    && work.tx.failureReason == Some(e) && work.tx.failureCode == Some(code)
  }

  /**
    Which exception a transfer fails with and the code that is stored for it: first what
    is wrong with the sender, in the order of the checks, then what is wrong with the
    receiver.
  */
  lemma MoveMoneyFailsWith(tx: TransactionState, sender: AccountState, receiver: AccountState, at: Stamps)
    requires tx.status == Pending && MoveMoney(tx, sender, receiver, at).Ok?
    ensures var work, amount := MoveMoney(tx, sender, receiver, at).value, tx.amount;
      if sender.status == Closed then FailsWith(work, AccountIsClosed, "ACCOUNTCLOSED")
      else if sender.status == Frozen then FailsWith(work, AccountIsFrozen, "ACCOUNTFROZEN")
      else if sender.balance.currency != amount.currency then FailsWith(work, CurrencyMismatch, "CURRENCYMISMATCH")
      else if sender.balance.cents < amount.cents then FailsWith(work, InsufficientFunds, "INSUFFICIENTFUNDS")
      else if receiver.status == Closed then FailsWith(work, AccountIsClosed, "ACCOUNTCLOSED")
      else if receiver.status == Frozen then FailsWith(work, AccountIsFrozen, "ACCOUNTFROZEN")
      else if receiver.balance.currency != amount.currency then FailsWith(work, CurrencyMismatch, "CURRENCYMISMATCH")
      else if receiver.balance.cents + amount.cents >= COEFFICIENT_LIMIT
      then FailsWith(work, InvalidDecimal, "INVALIDOPERATION")
      else work.failure == None && work.tx.status == Completed
  {
    hide Subtract, Add;
    DebitMeans(sender, tx.amount, tx.id, at.debit);
    CreditMeans(receiver, tx.amount, tx.id, at.credit);
  }

  /** The change that committing this work is. */
  function ChangeOf(work: Work, senderBefore: AccountState, at: Stamps): Change {
    if work.failure.None? then Transferred(TransactionToRow(work.tx), at.debit, at.credit)
    else Refused(TransactionToRow(work.tx),
                 if work.sender.pending != senderBefore.pending then Some(work.sender.balance.cents) else None)
  }

  /** Committing prepared work writes exactly that change. */
  lemma WorkIsChange(db: Db, openings: Openings, tx: TransactionState, at: Stamps)
    requires Tidy(db, openings) && tx.fromId in db.accounts && tx.toId in db.accounts
    requires tx.status == Pending && tx.fromId != tx.toId && tx.amount.cents > 0 && tx.id !in db.transactions
    requires var sender, receiver := LoadedFrom(db.accounts[tx.fromId]), LoadedFrom(db.accounts[tx.toId]);
             CommitError(db, MoveMoney(tx, sender, receiver, at).value).None?
    ensures var sender, receiver := LoadedFrom(db.accounts[tx.fromId]), LoadedFrom(db.accounts[tx.toId]);
      var work := MoveMoney(tx, sender, receiver, at).value;
      var change := ChangeOf(work, sender, at);
      && Permitted(db, change)
      && work.sender.id == tx.fromId && work.receiver.id == tx.toId
      && Written(db, work) == Changed(db, change)
  {
    hide MoveMoney;
    var sender, receiver := LoadedFrom(db.accounts[tx.fromId]), LoadedFrom(db.accounts[tx.toId]);
    MoveMoneyMeans(tx, sender, receiver, at);
    var work := MoveMoney(tx, sender, receiver, at).value;
    if work.failure.None? {
      CompletedWorkIsChange(db, openings, tx, work, at);
    } else {
      FailedWorkIsChange(db, openings, tx, work, at);
    }
  }

  lemma CompletedWorkIsChange(db: Db, openings: Openings, tx: TransactionState, work: Work, at: Stamps)
    requires Tidy(db, openings) && tx.fromId in db.accounts && tx.toId in db.accounts && tx.fromId != tx.toId
    requires tx.amount.cents > 0 && tx.id !in db.transactions && CommitError(db, work).None?
    requires SameTransfer(work.tx, tx) && work.failure.None? && work.tx.status == Completed
    requires var sender, receiver := LoadedFrom(db.accounts[tx.fromId]), LoadedFrom(db.accounts[tx.toId]);
      && CanPay(sender, tx.amount) && CanReceive(receiver, tx.amount)
      && work.sender == sender.(balance := Money(sender.balance.cents - tx.amount.cents, tx.amount.currency),
                                updatedAt := at.debit, pending := [DebitOf(sender, tx)])
      && work.receiver == receiver.(balance := Money(receiver.balance.cents + tx.amount.cents, tx.amount.currency),
                                    updatedAt := at.credit, pending := [CreditOf(receiver, tx)])
    ensures var change := Transferred(TransactionToRow(work.tx), at.debit, at.credit);
      && Permitted(db, change)
      && work.sender.id == tx.fromId && work.receiver.id == tx.toId
      && Written(db, work) == Changed(db, change)
  {
    var row := TransactionToRow(work.tx);
    var change := Transferred(row, at.debit, at.credit);
    assert Permitted(db, change);
    assert AsOutbox(work.sender.pending) == [OfAccount(work.sender.pending[0])];
    assert AsOutbox(work.receiver.pending) == [OfAccount(work.receiver.pending[0])];
    assert db.outbox + AsOutbox(work.sender.pending) + AsOutbox(work.receiver.pending) == Changed(db, change).outbox;
    assert WrittenAccounts(db, work) == Changed(db, change).accounts;
  }

  lemma FailedWorkIsChange(db: Db, openings: Openings, tx: TransactionState, work: Work, at: Stamps)
    requires Tidy(db, openings) && tx.fromId in db.accounts && tx.toId in db.accounts && tx.fromId != tx.toId
    requires tx.amount.cents > 0 && tx.id !in db.transactions && CommitError(db, work).None?
    requires SameTransfer(work.tx, tx) && work.failure.Some? && work.tx.status == Failed
    requires var sender, receiver := LoadedFrom(db.accounts[tx.fromId]), LoadedFrom(db.accounts[tx.toId]);
      && work.receiver == receiver
      && work.sender == (if !CanPay(sender, tx.amount) then sender
                         else sender.(balance := Money(sender.balance.cents - tx.amount.cents, tx.amount.currency),
                                      updatedAt := at.debit, pending := [DebitOf(sender, tx)]))
    ensures var change := ChangeOf(work, LoadedFrom(db.accounts[tx.fromId]), at);
      && Permitted(db, change)
      && work.sender.id == tx.fromId && work.receiver.id == tx.toId
      && Written(db, work) == Changed(db, change)
  {
    var sender := LoadedFrom(db.accounts[tx.fromId]);
    var change := ChangeOf(work, sender, at);
    assert AsOutbox(work.receiver.pending) == [];
    if CanPay(sender, tx.amount) {
      assert work.sender.pending[0] == DebitOf(sender, tx);
      assert change.debited.Some?;
      assert AsOutbox(work.sender.pending) == [OfAccount(work.sender.pending[0])];
    } else {
      assert change.debited.None?;
      assert AsOutbox(work.sender.pending) == [];
    }
    assert db.outbox + AsOutbox(work.sender.pending) + AsOutbox(work.receiver.pending) == Changed(db, change).outbox;
  }

  /** A whole request, run alone, is one permitted change. */
  lemma SequentialIsChange(db: Db, openings: Openings, cmd: Command, txId: TransactionId, at: Stamps)
    returns (change: Change)
    requires Tidy(db, openings) && txId !in db.transactions
    ensures Permitted(db, change) && Sequential(db, cmd, txId, at).db == Changed(db, change)
    ensures change == Nothing ||
            ((change.Refused? || change.Transferred?) && change.row.id == txId && change.row.key == cmd.key
             && change.row.fromId == cmd.fromId && change.row.toId == cmd.toId)
  {
    hide MoveMoney, CommitError, Written;
    change := Nothing;
    if KeyUsed(db, cmd.key) || CommandMoney(cmd).Err? || cmd.fromId == cmd.toId
       || cmd.fromId !in db.accounts || cmd.toId !in db.accounts {
      LoadAll(db, openings, cmd);
      return;
    }
    LoadAll(db, openings, cmd);
    var amount := CommandMoney(cmd).value;
    var sender, receiver := LoadedFrom(db.accounts[cmd.fromId]), LoadedFrom(db.accounts[cmd.toId]);
    var initiated := Initiated(txId, cmd.fromId, cmd.toId, amount, cmd.key, Transfer, at.created, at.touched);
    if initiated.Err? {
      return;
    }
    var tx := initiated.value;
    MoveMoneyMeans(tx, sender, receiver, at);
    var work := MoveMoney(tx, sender, receiver, at).value;
    if CommitError(db, work).None? {
      WorkIsChange(db, openings, tx, at);
      change := ChangeOf(work, sender, at);
    }
  }

  lemma LoadAll(db: Db, openings: Openings, cmd: Command)
    requires Tidy(db, openings)
    ensures cmd.fromId in db.accounts ==>
              WholeCents(db.accounts[cmd.fromId].balance)
              && AccountToDomain(db.accounts[cmd.fromId]) == Ok(LoadedFrom(db.accounts[cmd.fromId]))
    ensures cmd.toId in db.accounts ==>
              WholeCents(db.accounts[cmd.toId].balance)
              && AccountToDomain(db.accounts[cmd.toId]) == Ok(LoadedFrom(db.accounts[cmd.toId]))
  {
    if cmd.fromId in db.accounts {
      LoadTidy(db.accounts[cmd.fromId]);
    }
    if cmd.toId in db.accounts {
      LoadTidy(db.accounts[cmd.toId]);
    }
  }

  /** What the database says to prepared work. */
  lemma CommitErrorMeans(db: Db, work: Work)
    requires work.failure.Some? ==> work.tx.failureCode == Some(FailureCode(work.failure.value))
    requires work.failure.None? ==> work.tx.failureCode == None
    ensures CommitError(db, work).None? <==>
            !KeyUsed(db, work.tx.key) && FitsColumn(100 * work.tx.amount.cents) && |work.tx.key| <= 255
            && (work.failure.None? ==>
                  FitsColumn(100 * work.sender.balance.cents) && FitsColumn(100 * work.receiver.balance.cents))
  {
  }

  /** The two account rows with the amount moved from one to the other. */
  function Moved(accounts: map<AccountId, AccountRow>, cmd: Command, amount: Money, at: Stamps)
    : map<AccountId, AccountRow>
    requires cmd.fromId in accounts && cmd.toId in accounts
  {
    var sender, receiver := accounts[cmd.fromId], accounts[cmd.toId];
    accounts[cmd.fromId := sender.(balance := sender.balance - 100 * amount.cents, updatedAt := at.debit)]
            [cmd.toId := receiver.(balance := receiver.balance + 100 * amount.cents, updatedAt := at.credit)]
  }

  /** The outbox messages of a request: the debit if the sender can pay, then the credit if the receiver can receive. */
  function Told(cmd: Command, txId: TransactionId, sender: AccountState, receiver: AccountState, amount: Money)
    : seq<DomainEvent>
  {
    if !CanPay(sender, amount) then []
    else
      [OfAccount(BalanceDebited(cmd.fromId, txId, amount.cents, amount.currency, sender.balance.cents - amount.cents))]
      + (if CanReceive(receiver, amount)
         then [OfAccount(BalanceCredited(cmd.toId, txId, amount.cents, amount.currency,
                                         receiver.balance.cents + amount.cents))]
         else [])
  }

  /** The row says what was asked for and when it was dealt with. */
  predicate IsRowOf(row: TransactionRow, cmd: Command, txId: TransactionId, amount: Money, at: Stamps) {
    && row.id == txId && row.fromId == cmd.fromId && row.toId == cmd.toId && row.amount == 100 * amount.cents
    && row.currency == amount.currency && row.key == cmd.key && row.kind == Transfer
    && row.createdAt == at.created && row.updatedAt == at.finish
    && row.completedAt == (if row.status == Completed then Some(at.finish) else None)
    && (row.status == Completed ==> row.failureCode == None && row.failureReason == None)
    && (row.status == Failed ==> row.failureCode.Some? && row.failureReason.Some?)
  }

  /** What the database says to the work of a request, and what it holds if it takes it. */
  lemma PreparedMeans(db: Db, openings: Openings, cmd: Command, txId: TransactionId, at: Stamps)
    requires Tidy(db, openings) && txId !in db.transactions
    requires CommandMoney(cmd).Ok? && !KeyUsed(db, cmd.key) && cmd.fromId != cmd.toId
    requires cmd.fromId in db.accounts && cmd.toId in db.accounts && CommandMoney(cmd).value.cents > 0
    ensures var amount := CommandMoney(cmd).value;
      var sender, receiver := LoadedFrom(db.accounts[cmd.fromId]), LoadedFrom(db.accounts[cmd.toId]);
      var tx := Initiated(txId, cmd.fromId, cmd.toId, amount, cmd.key, Transfer, at.created, at.touched).value;
      var work := MoveMoney(tx, sender, receiver, at).value;
      var pays, receives := CanPay(sender, amount), CanReceive(receiver, amount);
      && MoveMoney(tx, sender, receiver, at).Ok?
      && work.sender.id == cmd.fromId && work.receiver.id == cmd.toId
      && (CommitError(db, work).None? <==>
            FitsColumn(100 * amount.cents) && |cmd.key| <= 255
            && (pays && receives ==> FitsColumn(100 * (receiver.balance.cents + amount.cents))))
      && Written(db, work).transactions == db.transactions[txId := TransactionToRow(work.tx)]
      && SameTransfer(work.tx, tx) && IsRowOf(TransactionToRow(work.tx), cmd, txId, amount, at)
      && work.tx.status == (if pays && receives then Completed else Failed)
      && Written(db, work).accounts == (if pays && receives then Moved(db.accounts, cmd, amount, at) else db.accounts)
      && Written(db, work).outbox == db.outbox + Told(cmd, txId, sender, receiver, amount)
  {
    hide MoveMoney, CommitError;
    var amount := CommandMoney(cmd).value;
    var sender, receiver := LoadedFrom(db.accounts[cmd.fromId]), LoadedFrom(db.accounts[cmd.toId]);
    var tx := Initiated(txId, cmd.fromId, cmd.toId, amount, cmd.key, Transfer, at.created, at.touched).value;
    MoveMoneyMeans(tx, sender, receiver, at);
    var work := MoveMoney(tx, sender, receiver, at).value;
    CommitErrorMeans(db, work);
    TellsAsSaid(cmd, tx, work, sender, receiver);
    hide AsOutbox, Told;
    ConcatThree(db.outbox, AsOutbox(work.sender.pending), AsOutbox(work.receiver.pending));
  }

  lemma TellsAsSaid(cmd: Command, tx: TransactionState, work: Work, sender: AccountState, receiver: AccountState)
    requires sender.id == cmd.fromId && receiver.id == cmd.toId
    requires work.failure.None? <==> CanPay(sender, tx.amount) && CanReceive(receiver, tx.amount)
    requires work.sender.pending == if CanPay(sender, tx.amount) then [DebitOf(sender, tx)] else []
    requires work.receiver.pending == if work.failure.None? then [CreditOf(receiver, tx)] else []
    ensures AsOutbox(work.sender.pending) + AsOutbox(work.receiver.pending)
         == Told(cmd, tx.id, sender, receiver, tx.amount)
  {
    assert AsOutbox([]) == [];
  }

  lemma ConcatThree(a: seq<DomainEvent>, b: seq<DomainEvent>, c: seq<DomainEvent>)
    ensures a + b + c == a + (b + c)
  {
  }

  /** The request gets as far as the domain calls. */
  ghost predicate Reaches(db: Db, cmd: Command) {
    && !KeyUsed(db, cmd.key) && CommandMoney(cmd).Ok? && CommandMoney(cmd).value.cents > 0
    && cmd.fromId != cmd.toId && cmd.fromId in db.accounts && cmd.toId in db.accounts
  }

  /** It gets there, and its transaction row fits the table. */
  ghost predicate Admitted(db: Db, cmd: Command) {
    Reaches(db, cmd) && FitsColumn(100 * CommandMoney(cmd).value.cents) && |cmd.key| <= 255
  }

  /** The sender can pay and the receiver cannot receive. */
  ghost predicate OnlyCreditFails(db: Db, cmd: Command)
    requires Reaches(db, cmd)
  {
    var sender, receiver := AccountToDomain(db.accounts[cmd.fromId]), AccountToDomain(db.accounts[cmd.toId]);
    sender.Ok? && receiver.Ok?
    && CanPay(sender.value, CommandMoney(cmd).value) && !CanReceive(receiver.value, CommandMoney(cmd).value)
  }

  /**
    When a request does what. It completes exactly if it is admitted, the sender can
    pay, the receiver can receive and the receiver's new balance fits its column; then
    the amount moves between the two rows and the outbox gets debit and credit. It
    leaves a FAILED row exactly if it is admitted and one of the two cannot; then no
    account row changes, and the outbox gets the sender's debit - which never happened -
    exactly if it was the receiver who could not. Otherwise nothing changes.
  */
  lemma SequentialMeans(db: Db, openings: Openings, cmd: Command, txId: TransactionId, at: Stamps)
    requires Tidy(db, openings) && txId !in db.transactions
    ensures var out := Sequential(db, cmd, txId, at).db;
      if !Admitted(db, cmd) then out == db
      else
        var amount := Money(Rounded(cmd.amount), cmd.currency.value);
        var sender, receiver := LoadedFrom(db.accounts[cmd.fromId]), LoadedFrom(db.accounts[cmd.toId]);
        var pays, receives := CanPay(sender, amount), CanReceive(receiver, amount);
        if pays && receives && !FitsColumn(100 * (receiver.balance.cents + amount.cents)) then out == db
        else
          && txId in out.transactions && out.transactions == db.transactions[txId := out.transactions[txId]]
          && IsRowOf(out.transactions[txId], cmd, txId, amount, at)
          && out.transactions[txId].status == (if pays && receives then Completed else Failed)
          && out.accounts == (if pays && receives then Moved(db.accounts, cmd, amount, at) else db.accounts)
          && out.outbox == db.outbox + Told(cmd, txId, sender, receiver, amount)
  {
    hide MoveMoney, CommitError, Changed, ChangeOf, Permitted;
    LoadAll(db, openings, cmd);
    CommandMoneyMeans(cmd);
    if Reaches(db, cmd) {
      PreparedMeans(db, openings, cmd, txId, at);
    }
  }

  // ----- Operations in commit order ------------------------------------------------

  /** What can commit: a transfer, the opening of an account, a change of status from outside the service. */
  datatype Op =
    | TransferOp(cmd: Command, txId: TransactionId, at: Stamps)
    | OpenOp(id: AccountId, ownerId: OwnerId, number: string, currency: Currency, initial: Option<Money>,
             createdAt: Time, updatedAt: Time)
    | StatusOp(id: AccountId, status: AccountStatus, now: Time)

  /** The change that opening an account is: none if creation raises, the id is taken or the column is too small. */
  function OpeningOf(db: Db, op: Op): Change
    requires op.OpenOp?
  {
    match Created(op.id, op.ownerId, op.number, op.currency, op.initial, op.createdAt, op.updatedAt)
    case Err(_) => Nothing
    case Ok(a) =>
      if a.id in db.accounts || !FitsColumn(100 * a.balance.cents) then Nothing else Opened(AccountToRow(a))
  }

  ghost function Applied(db: Db, op: Op): Db {
    match op
    case TransferOp(cmd, txId, at) => Sequential(db, cmd, txId, at).db
    case OpenOp(_, _, _, _, _, _, _) => Changed(db, OpeningOf(db, op))
    case StatusOp(id, status, now) => if id in db.accounts then Changed(db, StatusSet(id, status, now)) else db
  }

  ghost function ReplayAll(ops: seq<Op>): Db {
    if ops == [] then EMPTY_DB else Applied(ReplayAll(ops[..|ops| - 1]), ops[|ops| - 1])
  }

  ghost function OpeningsOf(ops: seq<Op>): Openings {
    if ops == [] then map[]
    else
      var before, op := OpeningsOf(ops[..|ops| - 1]), ops[|ops| - 1];
      if op.OpenOp? then OpeningsAfter(before, OpeningOf(ReplayAll(ops[..|ops| - 1]), op)) else before
  }

  /**
    What opening an account under a new id does: an active account with the given data
    and its initial balance or none, remembered as its opening balance - unless the
    initial balance is in another currency or does not fit its column.
  */
  lemma OpeningMeans(db: Db, openings: Openings, op: Op)
    requires op.OpenOp? && op.id !in db.accounts
    ensures var cents := if op.initial.Some? then op.initial.value.cents else 0;
      if (op.initial.Some? && op.initial.value.currency != op.currency) || 100 * cents >= COLUMN_LIMIT
      then Applied(db, op) == db && OpeningsAfter(openings, OpeningOf(db, op)) == openings
      else
        && Applied(db, op) == db.(accounts := db.accounts[op.id :=
             AccountRow(op.id, op.ownerId, op.number, 100 * cents, op.currency, Active, op.createdAt, op.updatedAt)])
        && OpeningsAfter(openings, OpeningOf(db, op)) == openings[op.id := Money(cents, op.currency)]
  {
    CreateMeans(op.id, op.ownerId, op.number, op.currency, op.initial, op.createdAt, op.updatedAt);
  }

  /** Every transfer comes with an id no transaction has yet. */
  ghost predicate FreshIds(ops: seq<Op>) {
    forall i :: 0 <= i < |ops| && ops[i].TransferOp? ==> ops[i].txId !in ReplayAll(ops[..i]).transactions
  }

  /** The books are in order: everything that holds of the tables and each account in them. */
  ghost predicate InOrder(db: Db, openings: Openings) {
    && Tidy(db, openings) && OutboxTidy(db)
    && (forall a :: a in db.accounts ==> Reconciled(db, openings, a) && Agrees(db, openings, a))
    && (forall currency :: Conserved(db, openings, currency))
  }

  lemma ChangeKeepsInOrder(db: Db, openings: Openings, change: Change)
    requires InOrder(db, openings) && Permitted(db, change)
    ensures InOrder(Changed(db, change), OpeningsAfter(openings, change))
  {
    hide Read, About, Sums.Sum;
    ChangeKeepsTidy(db, openings, change);
    ChangeKeepsOutboxTidy(db, change);
    var db', openings' := Changed(db, change), OpeningsAfter(openings, change);
    forall a | a in db'.accounts
      ensures Reconciled(db', openings', a) && Agrees(db', openings', a)
    {
      ChangeKeepsReconciled(db, openings, change, a);
      ChangeKeepsAgrees(db, openings, change, a);
    }
    forall currency
      ensures Conserved(db', openings', currency)
    {
      ChangeKeepsConserved(db, openings, change, currency);
    }
  }

  lemma OpIsChange(db: Db, openings: Openings, op: Op) returns (change: Change)
    requires Tidy(db, openings) && (op.TransferOp? ==> op.txId !in db.transactions)
    ensures Permitted(db, change) && Applied(db, op) == Changed(db, change)
    ensures op.OpenOp? ==> change == OpeningOf(db, op)
    ensures !op.OpenOp? ==> !change.Opened?
  {
    match op {
      case TransferOp(cmd, txId, at) => change := SequentialIsChange(db, openings, cmd, txId, at);
      case OpenOp(_, _, _, _, _, _, _) => change := OpeningOf(db, op);
      case StatusOp(id, status, now) => change := if id in db.accounts then StatusSet(id, status, now) else Nothing;
    }
  }

  /**
    After any operations in any order the books are in order: balances reconcile with
    the completed transactions, every currency is conserved, keys are unique, and the
    outbox has one debit and one credit per completed transfer whose running balances
    end at the stored one.
  */
  lemma {:induction false} BooksStayInOrder(ops: seq<Op>)
    requires FreshIds(ops)
    ensures InOrder(ReplayAll(ops), OpeningsOf(ops))
  {
    if ops != [] {
      var init := ops[..|ops| - 1];
      forall i | 0 <= i < |init|
        ensures init[..i] == ops[..i] && init[i] == ops[i]
      {
      }
      BooksStayInOrder(init);
      var change := OpIsChange(ReplayAll(init), OpeningsOf(init), ops[|ops| - 1]);
      ChangeKeepsInOrder(ReplayAll(init), OpeningsOf(init), change);
    } else {
      EmptyBooks();
    }
  }

  lemma EmptyBooks()
    ensures InOrder(EMPTY_DB, map[])
  {
  }

  lemma PrefixOfPrefix(ops: seq<Op>, n: nat)
    requires n <= |ops|
    ensures forall i :: 0 <= i <= n ==> ops[..n][..i] == ops[..i]
  {
  }

  lemma FreshPrefix(ops: seq<Op>, n: nat)
    requires n <= |ops|
    ensures FreshIds(ops) ==> FreshIds(ops[..n])
  {
    hide ReplayAll;
    PrefixOfPrefix(ops, n);
  }

  lemma TidyAfter(ops: seq<Op>)
    requires FreshIds(ops)
    ensures Tidy(ReplayAll(ops), OpeningsOf(ops)) && OutboxTidy(ReplayAll(ops))
  {
    BooksStayInOrder(ops);
  }
}
