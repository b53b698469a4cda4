/**
  One transfer run alone against the database: the sequential meaning of
  `TransferService.initiate` over the Postgres adapter. The aggregates are mapped
  copies of locked rows; only what is written back and committed reaches `Db`.
*/
module TransferSpec {
  import opened Prelude
  import opened Decimals
  import opened Domain
  import opened MoneyValues
  import opened Accounts
  import opened Transactions
  import opened Mappers

  /** The committed tables. */
  datatype Db = Db(accounts: map<AccountId, AccountRow>, transactions: map<TransactionId, TransactionRow>,
                   outbox: seq<DomainEvent>)

  const EMPTY_DB: Db := Db(map[], map[], [])

  /** `TransferCommand`; the currency is `None` if its code is not one of the enumeration. */
  datatype Command = Command(fromId: AccountId, toId: AccountId, amount: Decimal, currency: Option<Currency>,
                             key: IdempotencyKey)

  /** `sorted([str(from_id), str(to_id)])`: the lock keys, in the order they are taken. */
  function SortedKeys(cmd: Command): (keys: seq<AccountId>)
    ensures |keys| == 2
  {
    if cmd.fromId <= cmd.toId then [cmd.fromId, cmd.toId] else [cmd.toId, cmd.fromId]
  }

  /** The instants at which the aggregates read the clock. */
  datatype Stamps = Stamps(created: Time, touched: Time, processing: Time, debit: Time, credit: Time, finish: Time)

  datatype TransactionDTO = TransactionDTO(
    id: TransactionId, fromId: AccountId, toId: AccountId, amount: Money, status: TransactionStatus,
    key: IdempotencyKey, failureCode: Option<string>, failureReason: Option<Error>, createdAt: Time,
    completedAt: Option<Time>)

  /** What a request gets back. */
  datatype Response = Returned(dto: TransactionDTO) | Raised(error: Error)

  function DtoOf(t: TransactionState): TransactionDTO {
    TransactionDTO(t.id, t.fromId, t.toId, t.amount, t.status, t.key, t.failureCode, t.failureReason, t.createdAt,
                   t.completedAt)
  }

  // ----- Step by step -----------------------------------------------------------

  predicate KeyUsed(db: Db, key: IdempotencyKey) {
    exists t :: t in db.transactions && db.transactions[t].key == key
  }

  ghost function RowOfKey(db: Db, key: IdempotencyKey): (row: TransactionRow)
    requires KeyUsed(db, key)
    ensures row.key == key && exists t :: t in db.transactions && db.transactions[t] == row
  {
    var t :| t in db.transactions && db.transactions[t].key == key;
    db.transactions[t]
  }

  /** The answer to a repeated request: the stored transaction. */
  function Stored(row: TransactionRow): Response {
    match TransactionToDomain(row)
    case Ok(t) => Returned(DtoOf(t))
    case Err(e) => Raised(e)
  }

  function CommandMoney(cmd: Command): Result<Money, Error> {
    match cmd.currency
    case None => Err(UnknownCurrency)
    case Some(currency) => MakeMoney(cmd.amount, currency)
  }

  /**
    What a command asks for: exactly the amounts that `Money` takes, in a known
    currency, are asked for, rounded to the cent.
  */
  lemma CommandMoneyMeans(cmd: Command)
    ensures CommandMoney(cmd).Ok?
        <==> cmd.currency.Some? && cmd.amount.Finite? && Less(BELOW_ZERO, cmd.amount) && Less(cmd.amount, TOO_LARGE)
    ensures CommandMoney(cmd).Ok? ==>
              && CommandMoney(cmd).value.cents == Rounded(cmd.amount)
              && CommandMoney(cmd).value.currency == cmd.currency.value
    ensures cmd.currency.None? ==> CommandMoney(cmd) == Err(UnknownCurrency)
    ensures cmd.currency.Some? && (!cmd.amount.Finite? || !Less(cmd.amount, TOO_LARGE)) ==>
              CommandMoney(cmd) == Err(InvalidDecimal)
    ensures cmd.currency.Some? && cmd.amount.Finite? && 0 - COEFFICIENT_LIMIT < Rounded(cmd.amount) < 0 ==>
              CommandMoney(cmd) == Err(NegativeMoney)
    ensures cmd.currency.Some? && cmd.amount.Finite? && Rounded(cmd.amount) <= 0 - COEFFICIENT_LIMIT ==>
              CommandMoney(cmd) == Err(InvalidDecimal)
  {
    if cmd.currency.Some? {
      MoneyAcceptsIff(cmd.amount, cmd.currency.value);
      if cmd.amount.Finite? {
        RoundedAtLeast(cmd.amount, COEFFICIENT_LIMIT);
      }
    }
  }

  /** The aggregates as they are when the service turns to the repositories, and the exception to re-raise. */
  datatype Work = Work(tx: TransactionState, sender: AccountState, receiver: AccountState, failure: Option<Error>)

  function FailedWork(tx: TransactionState, sender: AccountState, receiver: AccountState, e: Error, now: Time)
    : Result<Work, Error>
  {
    match FailedOf(tx, FailureCode(e), e, now)
    case Err(other) => Err(other)
    case Ok(failed) => Ok(Work(failed, sender, receiver, Some(e)))
  }

  /** The body of the `try`, and the `except` that turns an exception into a failed transaction. */
  function MoveMoney(tx: TransactionState, sender: AccountState, receiver: AccountState, at: Stamps)
    : Result<Work, Error>
  {
    match ProcessingOf(tx, at.processing)
    case Err(e) => FailedWork(tx, sender, receiver, e, at.finish)
    case Ok(processing) =>
      match Debited(sender, tx.amount, tx.id, at.debit)
      case Err(e) => FailedWork(processing, sender, receiver, e, at.finish)
      case Ok(debited) =>
        match Credited(receiver, tx.amount, tx.id, at.credit)
        case Err(e) => FailedWork(processing, debited, receiver, e, at.finish)
        case Ok(credited) =>
          match CompletedOf(processing, at.finish)
          case Err(e) => FailedWork(processing, debited, credited, e, at.finish)
          case Ok(completed) => Ok(Work(completed, debited, credited, None))
  }

  function Prepare(cmd: Command, amount: Money, sender: AccountState, receiver: AccountState, txId: TransactionId,
                   at: Stamps): Result<Work, Error>
  {
    match Initiated(txId, cmd.fromId, cmd.toId, amount, cmd.key, Transfer, at.created, at.touched)
    case Err(e) => Err(e)
    case Ok(tx) => MoveMoney(tx, sender, receiver, at)
  }

  function AsOutbox(events: seq<AccountEvent>): (r: seq<DomainEvent>)
    ensures |r| == |events| && forall i :: 0 <= i < |events| ==> r[i] == OfAccount(events[i])
  {
    seq(|events|, i requires 0 <= i < |events| => OfAccount(events[i]))
  }

  /** The rows this unit of work writes: both accounts if the transfer went through, none otherwise. */
  function WrittenAccounts(db: Db, work: Work): map<AccountId, AccountRow>
    requires work.sender.id in db.accounts && work.receiver.id in db.accounts
  {
    if work.failure.Some? then db.accounts
    else
      var one := db.accounts[work.sender.id := UpdatedAccountRow(db.accounts[work.sender.id], work.sender)];
      one[work.receiver.id := UpdatedAccountRow(one[work.receiver.id], work.receiver)]
  }

  function Written(db: Db, work: Work): Db
    requires work.sender.id in db.accounts && work.receiver.id in db.accounts
  {
    Db(WrittenAccounts(db, work),
       db.transactions[work.tx.id := TransactionToRow(work.tx)],
       db.outbox + AsOutbox(work.sender.pending) + AsOutbox(work.receiver.pending))
  }

  predicate FitsColumn(n: int) {
    -COLUMN_LIMIT < n < COLUMN_LIMIT
  }

  predicate TransactionFits(row: TransactionRow) {
    && FitsColumn(row.amount) && |row.key| <= 255
    && (row.failureCode.Some? ==> |row.failureCode.value| <= 64)
  }

  predicate AccountsFit(work: Work) {
    work.failure.Some? || (FitsColumn(100 * work.sender.balance.cents) && FitsColumn(100 * work.receiver.balance.cents))
  }

  /** Why the database refuses these writes, if it does. */
  function CommitError(db: Db, work: Work): Option<Error> {
    if !TransactionFits(TransactionToRow(work.tx)) || !AccountsFit(work) then Some(ColumnOverflow)
    else if KeyUsed(db, work.tx.key) then Some(UniqueViolation)
    else None
  }

  /** The database after the request, the answer, and the events handed to the bus. */
  datatype Ending = Ending(db: Db, response: Response, published: seq<TransactionEvent>)

  ghost function Committed(db: Db, work: Work): Ending
    requires work.sender.id in db.accounts && work.receiver.id in db.accounts
  {
    match CommitError(db, work)
    case Some(e) => Ending(db, Raised(e), [])
    case None =>
      match work.failure
      case Some(e) => Ending(Written(db, work), Raised(e), [])
      case None => Ending(Written(db, work), Returned(DtoOf(work.tx)), work.tx.pending)
  }

  /** The transfer once its locks are held: load, move, commit. */
  ghost function Locked(db: Db, cmd: Command, amount: Money, txId: TransactionId, at: Stamps): Ending {
    if cmd.fromId !in db.accounts then Ending(db, Raised(ResourceNotFound), [])
    else
      match AccountToDomain(db.accounts[cmd.fromId])
      case Err(e) => Ending(db, Raised(e), [])
      case Ok(sender) =>
        if cmd.toId !in db.accounts then Ending(db, Raised(ResourceNotFound), [])
        else
          match AccountToDomain(db.accounts[cmd.toId])
          case Err(e) => Ending(db, Raised(e), [])
          case Ok(receiver) =>
            match Prepare(cmd, amount, sender, receiver, txId, at)
            case Err(e) => Ending(db, Raised(e), [])
            case Ok(work) =>
              // Loaded aggregates carry the ids of their rows; guarded for a table with misfiled rows.
              if work.sender.id !in db.accounts || work.receiver.id !in db.accounts
              then Ending(db, Raised(Infrastructure), [])
              else Committed(db, work)
  }

  /** `TransferService.initiate` run alone with fresh id `txId`. */
  ghost function Sequential(db: Db, cmd: Command, txId: TransactionId, at: Stamps): Ending {
    if KeyUsed(db, cmd.key) then Ending(db, Stored(RowOfKey(db, cmd.key)), [])
    else
      match CommandMoney(cmd)
      case Err(e) => Ending(db, Raised(e), [])
      case Ok(amount) =>
        // Both accounts the same: the second lock key is taken already, by this very request.
        if cmd.fromId == cmd.toId then Ending(db, Raised(ConcurrencyConflict), [])
        else Locked(db, cmd, amount, txId, at)
  }
}
