/**
  What a request is answered, spelled out from the command and the two account rows:
  the transaction it gets back, the exception it raises, the row it leaves for later
  requests with its key.
*/
module TransferAnswers {
  import opened Prelude
  import opened Decimals
  import opened Domain
  import opened MoneyValues
  import opened Accounts
  import opened Transactions
  import opened Mappers
  import opened TransferSpec
  import opened Books
  import opened Replay

  // ----- A stored transaction ---------------------------------------------------------

  /** The answer has the values of the row. */
  predicate Repeats(dto: TransactionDTO, row: TransactionRow) {
    && dto.id == row.id && dto.fromId == row.fromId && dto.toId == row.toId
    && 100 * dto.amount.cents == row.amount && dto.amount.currency == row.currency
    && dto.status == row.status && dto.key == row.key
    && dto.failureCode == row.failureCode && dto.failureReason == row.failureReason
    && dto.createdAt == row.createdAt && dto.completedAt == row.completedAt
  }

  /** A row with whole cents is answered, value by value. */
  lemma StoredMeans(row: TransactionRow)
    requires WholeCents(row.amount)
    ensures Stored(row).Returned? && Repeats(Stored(row).dto, row)
  {
    ColumnKeepsCents(Money(row.amount / 100, row.currency));
  }

  /** So a repeated request gets the values of the row under its key. */
  lemma RepeatMeans(db: Db, openings: Openings, cmd: Command, txId: TransactionId, at: Stamps, t: TransactionId)
    requires Tidy(db, openings) && t in db.transactions && db.transactions[t].key == cmd.key
    ensures var out := Sequential(db, cmd, txId, at);
      && out.db == db && out.published == []
      && out.response.Returned? && Repeats(out.response.dto, db.transactions[t])
  {
    assert TidyTransaction(t, db.transactions[t], db.accounts);
    StoredMeans(db.transactions[t]);
  }

  // ----- Requests that do not get to the domain calls ---------------------------------

  /**
    Why a new request does not get as far as the domain calls, in the order of the checks:
    an unknown currency, an amount that is no money, twice the same account - refused by
    the lock - a missing account, an amount that rounds to nothing.
  */
  lemma TurnedAwayMeans(db: Db, openings: Openings, cmd: Command, txId: TransactionId, at: Stamps)
    requires Tidy(db, openings) && !KeyUsed(db, cmd.key)
    ensures var answer := Sequential(db, cmd, txId, at).response;
      if cmd.currency.None? then answer == Raised(UnknownCurrency)
      else if !cmd.amount.Finite? || !Less(cmd.amount, TOO_LARGE) then answer == Raised(InvalidDecimal)
      else if Rounded(cmd.amount) <= 0 - COEFFICIENT_LIMIT then answer == Raised(InvalidDecimal)
      else if Rounded(cmd.amount) < 0 then answer == Raised(NegativeMoney)
      else if cmd.fromId == cmd.toId then answer == Raised(ConcurrencyConflict)
      else if cmd.fromId !in db.accounts || cmd.toId !in db.accounts then answer == Raised(ResourceNotFound)
      else if Rounded(cmd.amount) == 0 then answer == Raised(InvalidTransferAmount)
      else Reaches(db, cmd)
  {
    hide CommandMoney, MoveMoney, AccountToDomain, Less, Rounded;
    CommandMoneyMeans(cmd);
    MoneyIsNotNegative(cmd);
    LoadAll(db, openings, cmd);
  }

  lemma MoneyIsNotNegative(cmd: Command)
    ensures cmd.currency.Some? && cmd.amount.Finite? && Less(cmd.amount, TOO_LARGE) && Rounded(cmd.amount) >= 0 ==>
              CommandMoney(cmd).Ok?
  {
    if cmd.amount.Finite? {
      RoundedAtLeast(cmd.amount, COEFFICIENT_LIMIT);
    }
  }

  // ----- Requests that do ----------------------------------------------------------------

  /** The sender's row lets it pay this amount. */
  predicate RowPays(row: AccountRow, cents: int, currency: Currency) {
    row.status == Active && row.currency == currency && row.balance >= 100 * cents
  }

  predicate RowReceives(row: AccountRow, cents: int, currency: Currency) {
    row.status == Active && row.currency == currency && row.balance + 100 * cents < 100 * COEFFICIENT_LIMIT
  }

  /** The request raised this, left a FAILED row that says so under this code, and published nothing. */
  ghost predicate Refused(out: Ending, txId: TransactionId, e: Error, code: string) {
    && out.response == Raised(e) && out.published == [] && txId in out.db.transactions
    && out.db.transactions[txId].status == Failed && out.db.transactions[txId].failureReason == Some(e)
    && out.db.transactions[txId].failureCode == Some(code)
  }

  /** What the work of a request is, and whether it is stored. */
  lemma ReachingWork(db: Db, openings: Openings, cmd: Command, txId: TransactionId, at: Stamps)
    returns (tx: TransactionState, work: Work)
    requires Tidy(db, openings) && txId !in db.transactions && Reaches(db, cmd)
    ensures var sender, receiver := LoadedFrom(db.accounts[cmd.fromId]), LoadedFrom(db.accounts[cmd.toId]);
      && tx.status == Pending && tx.id == txId && tx.fromId == cmd.fromId && tx.toId == cmd.toId && tx.key == cmd.key
      && tx.amount.cents == Rounded(cmd.amount) && tx.amount.currency == cmd.currency.value
      && tx.createdAt == at.created && tx.failureCode == None && tx.failureReason == None
      && tx.pending == [TransactionInitiated(txId, cmd.fromId, cmd.toId, tx.amount, cmd.key)]
      && MoveMoney(tx, sender, receiver, at) == Ok(work)
    ensures work.sender.id in db.accounts && work.receiver.id in db.accounts
    ensures Sequential(db, cmd, txId, at) == Committed(db, work)
    ensures CommitError(db, work)
         == if Oversized(db, cmd) then Some(ColumnOverflow) else None
  {
    hide CommandMoney, MoveMoney, AccountToDomain, Rounded, Less, CommitError, Committed, Written;
    LoadAll(db, openings, cmd);
    CommandMoneyMeans(cmd);
    var amount := CommandMoney(cmd).value;
    var sender, receiver := LoadedFrom(db.accounts[cmd.fromId]), LoadedFrom(db.accounts[cmd.toId]);
    tx := Initiated(txId, cmd.fromId, cmd.toId, amount, cmd.key, Transfer, at.created, at.touched).value;
    MoveMoneyMeans(tx, sender, receiver, at);
    work := MoveMoney(tx, sender, receiver, at).value;
    PreparedMeans(db, openings, cmd, txId, at);
    WhichError(db, work);
  }

  /** Nothing but a column can be in the way of a key that is not used. */
  lemma WhichError(db: Db, work: Work)
    ensures CommitError(db, work).Some? && !KeyUsed(db, work.tx.key) ==> CommitError(db, work) == Some(ColumnOverflow)
  {
  }

  /** Amount, key or - of a transfer that would complete - the receiver's new balance is too big for its column. */
  ghost predicate Oversized(db: Db, cmd: Command)
    requires Reaches(db, cmd)
  {
    CommandMoneyMeans(cmd);
    var cents, currency := Rounded(cmd.amount), cmd.currency.value;
    var sender, receiver := db.accounts[cmd.fromId], db.accounts[cmd.toId];
    || 100 * cents >= COLUMN_LIMIT || |cmd.key| > 255
    || (RowPays(sender, cents, currency) && RowReceives(receiver, cents, currency)
        && receiver.balance + 100 * cents >= COLUMN_LIMIT)
  }

  /**
    A request that reaches the domain calls and whose two accounts can pay and receive
    gets its completed transaction back, with what was asked for in it, and its three
    events are published.
  */
  lemma CompletedMeans(db: Db, openings: Openings, cmd: Command, txId: TransactionId, at: Stamps)
    requires Tidy(db, openings) && txId !in db.transactions && Reaches(db, cmd) && !Oversized(db, cmd)
    requires cmd.currency.Some? && cmd.amount.Finite?
    requires RowPays(db.accounts[cmd.fromId], Rounded(cmd.amount), cmd.currency.value)
    requires RowReceives(db.accounts[cmd.toId], Rounded(cmd.amount), cmd.currency.value)
    ensures 0 < Rounded(cmd.amount) < COEFFICIENT_LIMIT
    ensures var out := Sequential(db, cmd, txId, at);
      var amount := Money(Rounded(cmd.amount), cmd.currency.value);
      && out.response == Returned(TransactionDTO(txId, cmd.fromId, cmd.toId, amount, Completed, cmd.key, None, None,
                                                 at.created, Some(at.finish)))
      && out.published == [TransactionInitiated(txId, cmd.fromId, cmd.toId, amount, cmd.key),
                           TransactionProcessing(txId, cmd.fromId, cmd.toId, amount),
                           TransactionCompleted(txId, cmd.fromId, cmd.toId, amount)]
  {
    hide CommandMoney, MoveMoney, CommitError, Written, Rounded, Less, Sequential, Oversized;
    CommandMoneyMeans(cmd);
    var tx, work := ReachingWork(db, openings, cmd, txId, at);
    var sender, receiver := LoadedFrom(db.accounts[cmd.fromId]), LoadedFrom(db.accounts[cmd.toId]);
    MoveMoneyMeans(tx, sender, receiver, at);
  }

  /**
    Otherwise it raises, and a later request with its key will find why: the first thing
    wrong with the sender or, if the sender can pay, with the receiver.
  */
  lemma RefusedMeans(db: Db, openings: Openings, cmd: Command, txId: TransactionId, at: Stamps)
    requires Tidy(db, openings) && txId !in db.transactions && Reaches(db, cmd) && !Oversized(db, cmd)
    requires cmd.currency.Some? && cmd.amount.Finite?
    ensures var out, cents, currency := Sequential(db, cmd, txId, at), Rounded(cmd.amount), cmd.currency.value;
      var sender, receiver := db.accounts[cmd.fromId], db.accounts[cmd.toId];
      if sender.status == Closed then Refused(out, txId, AccountIsClosed, "ACCOUNTCLOSED")
      else if sender.status == Frozen then Refused(out, txId, AccountIsFrozen, "ACCOUNTFROZEN")
      else if sender.currency != currency then Refused(out, txId, CurrencyMismatch, "CURRENCYMISMATCH")
      else if sender.balance < 100 * cents then Refused(out, txId, InsufficientFunds, "INSUFFICIENTFUNDS")
      else if receiver.status == Closed then Refused(out, txId, AccountIsClosed, "ACCOUNTCLOSED")
      else if receiver.status == Frozen then Refused(out, txId, AccountIsFrozen, "ACCOUNTFROZEN")
      else if receiver.currency != currency then Refused(out, txId, CurrencyMismatch, "CURRENCYMISMATCH")
      else if receiver.balance + 100 * cents >= 100 * COEFFICIENT_LIMIT
      then Refused(out, txId, InvalidDecimal, "INVALIDOPERATION")
      else RowPays(sender, cents, currency) && RowReceives(receiver, cents, currency)
  {
    hide CommandMoney, MoveMoney, CommitError, Rounded, Less, Sequential, Oversized, WrittenAccounts;
    CommandMoneyMeans(cmd);
    var tx, work := ReachingWork(db, openings, cmd, txId, at);
    var sender, receiver := LoadedFrom(db.accounts[cmd.fromId]), LoadedFrom(db.accounts[cmd.toId]);
    MoveMoneyMeans(tx, sender, receiver, at);
    MoveMoneyFailsWith(tx, sender, receiver, at);
  }

  /** What does not fit its column is refused and leaves no row. */
  lemma OversizedMeans(db: Db, openings: Openings, cmd: Command, txId: TransactionId, at: Stamps)
    requires Tidy(db, openings) && txId !in db.transactions && Reaches(db, cmd) && Oversized(db, cmd)
    ensures var out := Sequential(db, cmd, txId, at);
      out.response == Raised(ColumnOverflow) && out.db == db && out.published == []
  {
    hide CommandMoney, MoveMoney, CommitError, Rounded, Less, Sequential, Oversized;
    var tx, work := ReachingWork(db, openings, cmd, txId, at);
  }
}
