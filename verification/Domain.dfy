/** Identifiers, enumerations, exceptions and domain events. */
module Domain {
  import opened Decimals

  /** Account ids; the order of the numbers is the order of the ids' canonical UUID text. */
  type AccountId = nat
  type OwnerId = nat
  type TransactionId = nat
  type IdempotencyKey = string
  /** An instant read from the clock. */
  type Time = int

  datatype Currency = EUR | USD | GBP | IRR

  datatype AccountStatus = Active | Frozen | Closed

  datatype TransactionType = Transfer | Deposit | Withdrawal

  datatype TransactionStatus = Pending | Processing | Completed | Failed {
    predicate CanProcess() { Pending? }
    predicate CanComplete() { Processing? }
    predicate CanFail() { Pending? || Processing? }
    predicate IsTerminal() { Completed? || Failed? }
  }

  /** An amount in cents that fits the decimal context. */
  type Cents = c: int | 0 <= c < COEFFICIENT_LIMIT

  datatype Money = Money(cents: Cents, currency: Currency) {
    predicate IsZero() { cents == 0 }
  }

  /** Every exception the modelled code can raise. */
  datatype Error =
    | InvalidDecimal                 // decimal.InvalidOperation
    | NegativeMoney                  // ValueError of Money.__post_init__
    | UnknownCurrency                // ValueError of Currency(...)
    | InsufficientFunds
    | CurrencyMismatch
    | AccountIsFrozen
    | AccountIsClosed
    | AccountNotEmpty
    | InvalidTransferAmount
    | SameAccountTransfer
    | TransactionAlreadyProcessing
    | TransactionAlreadyCompleted
    | TransactionNotFailable
    | TransactionRollback
    | ResourceNotFound
    | ConcurrencyConflict
    | UniqueViolation                // IntegrityError of the unique index
    | ColumnOverflow                 // DataError of a column that is too small
    | Infrastructure                 // lost connection, cancellation, ...

  /** `type(exc).__name__.upper().replace("ERROR", "")` for what the domain calls can raise. */
  function FailureCode(e: Error): string {
    match e
    case InvalidDecimal => "INVALIDOPERATION"
    case InsufficientFunds => "INSUFFICIENTFUNDS"
    case CurrencyMismatch => "CURRENCYMISMATCH"
    case AccountIsFrozen => "ACCOUNTFROZEN"
    case AccountIsClosed => "ACCOUNTCLOSED"
    case _ => ""
  }

  datatype AccountEvent =
    | AccountCreated(accountId: AccountId, ownerId: OwnerId, currency: Currency, initialBalance: Cents)
    | BalanceDebited(accountId: AccountId, transactionId: TransactionId, amount: Cents, currency: Currency,
                     balanceAfter: Cents)
    | BalanceCredited(accountId: AccountId, transactionId: TransactionId, amount: Cents, currency: Currency,
                      balanceAfter: Cents)
    | AccountFrozen(accountId: AccountId, ownerId: OwnerId, reason: string)
    | AccountUnfrozen(accountId: AccountId, ownerId: OwnerId)
    | AccountClosed(accountId: AccountId, ownerId: OwnerId)

  datatype TransactionEvent =
    | TransactionInitiated(transactionId: TransactionId, fromId: AccountId, toId: AccountId, amount: Money,
                           key: IdempotencyKey)
    | TransactionProcessing(transactionId: TransactionId, fromId: AccountId, toId: AccountId, amount: Money)
    | TransactionCompleted(transactionId: TransactionId, fromId: AccountId, toId: AccountId, amount: Money)
    | TransactionFailed(transactionId: TransactionId, fromId: AccountId, toId: AccountId, amount: Money,
                        failureCode: string, failureReason: Error, rollbackRequired: bool)
    | TransactionRolledBack(transactionId: TransactionId, fromId: AccountId, amount: Money)

  datatype DomainEvent = OfAccount(account: AccountEvent) | OfTransaction(transaction: TransactionEvent)
}
