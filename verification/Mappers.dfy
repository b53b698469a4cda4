/**
  Table rows and the mappers between them and the aggregates. A monetary column
  is NUMERIC(19, 4): a row holds the amount counted in ten-thousandths.
*/
module Mappers {
  import opened Prelude
  import opened Decimals
  import opened Domain
  import opened MoneyValues
  import opened Accounts
  import opened Transactions
  import TransactionCalls = Transactions
  import AccountCalls = Accounts

  datatype AccountRow = AccountRow(
    id: AccountId, ownerId: OwnerId, number: string, balance: int, currency: Currency, status: AccountStatus,
    createdAt: Time, updatedAt: Time)

  datatype TransactionRow = TransactionRow(
    id: TransactionId, fromId: AccountId, toId: AccountId, amount: int, currency: Currency, kind: TransactionType,
    status: TransactionStatus, key: IdempotencyKey, failureCode: Option<string>, failureReason: Option<Error>,
    createdAt: Time, updatedAt: Time, completedAt: Option<Time>)

  /** The first amount, in ten-thousandths, that NUMERIC(19, 4) cannot hold. */
  const COLUMN_LIMIT: int := 10_000_000_000_000_000_000

  /** Nineteen digits, counted in ten-thousandths. */
  lemma ColumnHas19Digits()
    ensures COLUMN_LIMIT == Pow10(19) && COEFFICIENT_LIMIT == Pow10(28)
  {
    LimitHas28Digits();
    assert Pow10(9) == 1_000_000_000;
    Pow10Sum(19, 9);
  }

  /** `Decimal(str(column))`. */
  function ColumnDecimal(n: int): Decimal {
    Finite(n < 0, if n < 0 then -n else n, -4)
  }

  function ColumnMoney(n: int, currency: Currency): Result<Money, Error> {
    MakeMoney(ColumnDecimal(n), currency)
  }

  function AccountToDomain(row: AccountRow): Result<AccountState, Error> {
    match ColumnMoney(row.balance, row.currency)
    case Err(e) => Err(e)
    case Ok(balance) =>
      Ok(AccountState(row.id, row.ownerId, row.number, balance, row.status, row.createdAt, row.updatedAt, []))
  }

  function AccountToRow(a: AccountState): AccountRow {
    AccountRow(a.id, a.ownerId, a.number, 100 * a.balance.cents, a.balance.currency, a.status,
               a.createdAt, a.updatedAt)
  }

  function UpdatedAccountRow(row: AccountRow, a: AccountState): AccountRow {
    row.(balance := 100 * a.balance.cents, currency := a.balance.currency, status := a.status,
         updatedAt := a.updatedAt)
  }

  function TransactionToDomain(row: TransactionRow): Result<TransactionState, Error> {
    match ColumnMoney(row.amount, row.currency)
    case Err(e) => Err(e)
    case Ok(amount) =>
      Ok(TransactionState(row.id, row.fromId, row.toId, amount, row.kind, row.status, row.key, row.failureCode,
                          row.failureReason, row.completedAt, false, row.createdAt, row.updatedAt, []))
  }

  function TransactionToRow(t: TransactionState): TransactionRow {
    TransactionRow(t.id, t.fromId, t.toId, 100 * t.amount.cents, t.amount.currency, t.kind, t.status, t.key,
                   t.failureCode, t.failureReason, t.createdAt, t.updatedAt, t.completedAt)
  }

  function UpdatedTransactionRow(row: TransactionRow, t: TransactionState): TransactionRow {
    row.(status := t.status, failureCode := t.failureCode, failureReason := t.failureReason,
         completedAt := t.completedAt, updatedAt := t.updatedAt)
  }

  // ----- The mapped objects -----------------------------------------------------

  class AccountORM {
    var id: AccountId
    var ownerId: OwnerId
    var number: string
    var balance: int
    var currency: Currency
    var status: AccountStatus
    var createdAt: Time
    var updatedAt: Time

    function Row(): AccountRow
      reads this
    {
      AccountRow(id, ownerId, number, balance, currency, status, createdAt, updatedAt)
    }

    constructor FromRow(row: AccountRow)
      ensures Row() == row
    {
      id, ownerId, number, balance := row.id, row.ownerId, row.number, row.balance;
      currency, status, createdAt, updatedAt := row.currency, row.status, row.createdAt, row.updatedAt;
    }
  }

  class TransactionORM {
    var id: TransactionId
    var fromId: AccountId
    var toId: AccountId
    var amount: int
    var currency: Currency
    var kind: TransactionType
    var status: TransactionStatus
    var key: IdempotencyKey
    var failureCode: Option<string>
    var failureReason: Option<Error>
    var createdAt: Time
    var updatedAt: Time
    var completedAt: Option<Time>

    function Row(): TransactionRow
      reads this
    {
      TransactionRow(id, fromId, toId, amount, currency, kind, status, key, failureCode, failureReason,
                     createdAt, updatedAt, completedAt)
    }

    constructor FromRow(row: TransactionRow)
      ensures Row() == row
    {
      id, fromId, toId, amount, currency := row.id, row.fromId, row.toId, row.amount, row.currency;
      kind, status, key, failureCode := row.kind, row.status, row.key, row.failureCode;
      failureReason, createdAt := row.failureReason, row.createdAt;
      updatedAt, completedAt := row.updatedAt, row.completedAt;
    }
  }

  class AccountMapper {
    static method ToDomain(orm: AccountORM) returns (r: Result<Account, Error>)
      ensures match AccountToDomain(orm.Row())
              case Ok(a) => r.Ok? && fresh(r.value) && r.value.State() == a
              case Err(e) => r == Err(e)
    {
      var money := ColumnMoney(orm.balance, orm.currency);
      if money.Err? {
        return Err(money.error);
      }
      var account := new Account.Reconstitute(orm.id, orm.ownerId, orm.number, money.value, orm.status,
                                              orm.createdAt, orm.updatedAt);
      return Ok(account);
    }

    static method ToNewOrm(account: Account) returns (orm: AccountORM)
      ensures fresh(orm) && orm.Row() == AccountToRow(account.State())
    {
      orm := new AccountORM.FromRow(
        AccountRow(account.id, account.ownerId, account.accountNumber, 100 * account.balance.cents,
                   account.balance.currency, account.status, account.createdAt, account.updatedAt));
    }

    static method UpdateOrm(orm: AccountORM, account: Account)
      modifies orm
      ensures orm.Row() == UpdatedAccountRow(old(orm.Row()), account.State())
    {
      orm.balance := 100 * account.balance.cents;
      orm.currency := account.balance.currency;
      orm.status := account.status;
      orm.updatedAt := account.updatedAt;
    }
  }

  class TransactionMapper {
    static method ToDomain(orm: TransactionORM) returns (r: Result<Transaction, Error>)
      ensures match TransactionToDomain(orm.Row())
              case Ok(t) => r.Ok? && fresh(r.value) && r.value.State() == t
              case Err(e) => r == Err(e)
    {
      var money := ColumnMoney(orm.amount, orm.currency);
      if money.Err? {
        return Err(money.error);
      }
      var tx := new Transaction.Reconstitute(orm.id, orm.fromId, orm.toId, money.value, orm.kind, orm.status, orm.key,
                                             orm.failureCode, orm.failureReason, orm.completedAt, false,
                                             orm.createdAt, orm.updatedAt);
      return Ok(tx);
    }

    static method ToNewOrm(tx: Transaction) returns (orm: TransactionORM)
      ensures fresh(orm) && orm.Row() == TransactionToRow(tx.State())
    {
      orm := new TransactionORM.FromRow(
        TransactionRow(tx.id, tx.fromId, tx.toId, 100 * tx.amount.cents, tx.amount.currency, tx.kind, tx.status,
                       tx.key, tx.failureCode, tx.failureReason, tx.createdAt, tx.updatedAt, tx.completedAt));
    }

    static method UpdateOrm(orm: TransactionORM, tx: Transaction)
      modifies orm
      ensures orm.Row() == UpdatedTransactionRow(old(orm.Row()), tx.State())
    {
      orm.status := tx.status;
      orm.failureCode := tx.failureCode;
      orm.failureReason := tx.failureReason;
      orm.completedAt := tx.completedAt;
      orm.updatedAt := tx.updatedAt;
    }
  }

  // ----- What a row keeps of an aggregate ---------------------------------------

  /** An amount stored with four places comes back as the same cents. */
  lemma ColumnKeepsCents(m: Money)
    ensures ColumnMoney(100 * m.cents, m.currency) == Ok(m)
  {
    assert Pow10(2) == 100 * Pow10(0);
    HalfUpExact(m.cents, 100);
  }

  /** Storing and loading an account loses its pending events and nothing else. */
  lemma AccountRoundTrip(a: AccountState)
    ensures AccountToDomain(AccountToRow(a)) == Ok(a.(pending := []))
  {
    ColumnKeepsCents(a.balance);
  }

  /** A loaded account has the id of its row. */
  lemma LoadKeepsId(row: AccountRow)
    requires AccountToDomain(row).Ok?
    ensures AccountToDomain(row).value.id == row.id
  {
  }

  /** Storing and loading a transaction loses its pending events and its rollback flag and nothing else. */
  lemma TransactionRoundTrip(t: TransactionState)
    ensures TransactionToDomain(TransactionToRow(t)) == Ok(t.(pending := [], rollbackRequired := false))
  {
    ColumnKeepsCents(t.amount);
  }

  /** So a stored transaction forgets that it needs a rollback exactly when it needed one. */
  lemma RollbackFlagIsLostIff(t: TransactionState)
    ensures var loaded := TransactionToDomain(TransactionToRow(t));
      loaded.Ok? && (loaded.value.NeedsRollback() != t.NeedsRollback() <==> t.NeedsRollback())
  {
    TransactionRoundTrip(t);
  }

  /**
    In terms of the calls made on it, whatever they were: loading changes the answer of
    `needs_rollback` exactly if the transaction was marked processing and then failed.
  */
  lemma RollbackFlagIsLostAfter(r: TransactionCalls.Recorded, ops: seq<(TransactionCalls.Operation, Time)>)
    requires Faithful(r.tx, r.History())
    ensures var later := TransactionCalls.PerformAll(r, ops);
      var loaded, w := TransactionToDomain(TransactionToRow(later.tx)), Kinds(later.History());
      loaded.Ok?
      && (loaded.value.NeedsRollback() != later.tx.NeedsRollback() <==> |w| > 2 && w[1] == P && w[2] == F)
  {
    HistoryIsLifecycleWord(r, ops);
    var later := TransactionCalls.PerformAll(r, ops);
    TransactionRoundTrip(later.tx);
    LastDecides(Kinds(later.History()));
  }

  /**
    And for a transaction loaded from its row the check of `mark_rolled_back` agrees
    with `needs_rollback` exactly when it has not failed: the check accepts every FAILED
    one, also one that went through PROCESSING, and the flag is gone.
  */
  lemma RollbackOfStoredIsExactIff(t: TransactionState, now: Time)
    ensures var loaded := TransactionToDomain(TransactionToRow(t));
      loaded.Ok?
      && ((RolledBackOf(loaded.value, now).Ok? <==> loaded.value.NeedsRollback()) <==> t.status != Failed)
  {
    TransactionRoundTrip(t);
  }

  /** Loading and storing a row gives the row back exactly when it held whole cents that fit the context. */
  lemma RowRoundTripIff(row: AccountRow)
    ensures AccountToDomain(row).Ok? && AccountToRow(AccountToDomain(row).value) == row
        <==> 0 <= row.balance < 100 * COEFFICIENT_LIMIT && row.balance % 100 == 0
  {
    if 0 <= row.balance < 100 * COEFFICIENT_LIMIT && row.balance % 100 == 0 {
      ColumnKeepsCents(Money(row.balance / 100, row.currency));
    }
  }

  lemma {:induction false} AccountCallsKeepIdentity(r: AccountCalls.Recorded,
                                                   ops: seq<(AccountCalls.Operation, Time)>)
    ensures var a := AccountCalls.PerformAll(r, ops).account;
      a.id == r.account.id && a.ownerId == r.account.ownerId && a.number == r.account.number
      && a.createdAt == r.account.createdAt
  {
    if ops != [] {
      AccountCallsKeepIdentity(r, ops[..|ops| - 1]);
    }
  }

  /** Updating the row of an earlier state in place equals inserting the later state afresh. */
  lemma AccountUpdateEqualsInsert(r: AccountCalls.Recorded, ops: seq<(AccountCalls.Operation, Time)>)
    ensures var later := AccountCalls.PerformAll(r, ops).account;
      UpdatedAccountRow(AccountToRow(r.account), later) == AccountToRow(later)
  {
    AccountCallsKeepIdentity(r, ops);
  }

  lemma {:induction false} TransactionCallsKeepIdentity(r: TransactionCalls.Recorded,
                                                       ops: seq<(TransactionCalls.Operation, Time)>)
    ensures var t := TransactionCalls.PerformAll(r, ops).tx;
      && t.id == r.tx.id && t.fromId == r.tx.fromId && t.toId == r.tx.toId && t.amount == r.tx.amount
      && t.kind == r.tx.kind && t.key == r.tx.key && t.createdAt == r.tx.createdAt
  {
    if ops != [] {
      TransactionCallsKeepIdentity(r, ops[..|ops| - 1]);
    }
  }

  /** The same for transactions, whose update leaves eight columns alone. */
  lemma TransactionUpdateEqualsInsert(r: TransactionCalls.Recorded, ops: seq<(TransactionCalls.Operation, Time)>)
    ensures var later := TransactionCalls.PerformAll(r, ops).tx;
      UpdatedTransactionRow(TransactionToRow(r.tx), later) == TransactionToRow(later)
  {
    TransactionCallsKeepIdentity(r, ops);
  }
}
