/**
  What the committed tables look like after any sequence of permitted changes:
  balances against the transaction table, the outbox against both.
*/
module Books {
  import opened Prelude
  import opened Domain
  import opened Sums
  import opened Mappers
  import opened TransferSpec

  /** Everything that can happen to the committed tables. */
  datatype Change =
    | Nothing
    | Opened(account: AccountRow)
    | StatusSet(id: AccountId, status: AccountStatus, at: Time)
      /** A failed transfer; `debited` is the balance its sender's copy had come to if the credit was what failed. */
    | Refused(row: TransactionRow, debited: Option<Cents>)
    | Transferred(row: TransactionRow, debitAt: Time, creditAt: Time)

  /** Each account's opening balance. */
  type Openings = map<AccountId, Money>

  function DebitEvent(row: TransactionRow, after: int): DomainEvent
    requires 0 <= row.amount < COLUMN_LIMIT && 0 <= after < COLUMN_LIMIT
  {
    OfAccount(BalanceDebited(row.fromId, row.id, row.amount / 100, row.currency, after))
  }

  function CreditEvent(row: TransactionRow, after: int): DomainEvent
    requires 0 <= row.amount < COLUMN_LIMIT && 0 <= after < COLUMN_LIMIT
  {
    OfAccount(BalanceCredited(row.toId, row.id, row.amount / 100, row.currency, after))
  }

  predicate WholeCents(n: int) {
    0 <= n < COLUMN_LIMIT && n % 100 == 0
  }

  ghost predicate NewRow(db: Db, row: TransactionRow) {
    && row.id !in db.transactions && !KeyUsed(db, row.key)
    && row.fromId != row.toId && WholeCents(row.amount) && row.amount > 0
  }

  /** The account can take part in this transfer. */
  ghost predicate Ready(db: Db, id: AccountId, row: TransactionRow) {
    id in db.accounts && db.accounts[id].status == Active && db.accounts[id].currency == row.currency
  }

  ghost predicate Permitted(db: Db, change: Change) {
    match change
    case Nothing => true
    case Opened(row) => row.id !in db.accounts && WholeCents(row.balance)
    case StatusSet(id, _, _) => id in db.accounts
    case Refused(row, debited) =>
      && NewRow(db, row) && row.status == Failed
      && (debited.Some? ==>
            Ready(db, row.fromId, row) && 100 * debited.value == db.accounts[row.fromId].balance - row.amount
            && 100 * debited.value < COLUMN_LIMIT)
    case Transferred(row, _, _) =>
      && NewRow(db, row) && row.status == Completed
      && Ready(db, row.fromId, row) && Ready(db, row.toId, row)
      && WholeCents(db.accounts[row.fromId].balance - row.amount)
      && WholeCents(db.accounts[row.toId].balance + row.amount)
  }

  ghost function Changed(db: Db, change: Change): Db
    requires Permitted(db, change)
  {
    match change
    case Nothing => db
    case Opened(row) => db.(accounts := db.accounts[row.id := row])
    case StatusSet(id, status, at) =>
      db.(accounts := db.accounts[id := db.accounts[id].(status := status, updatedAt := at)])
    case Refused(row, debited) =>
      db.(transactions := db.transactions[row.id := row],
          outbox := db.outbox + if debited.Some? then [DebitEvent(row, debited.value)] else [])
    case Transferred(row, debitAt, creditAt) =>
      var sender, receiver := db.accounts[row.fromId], db.accounts[row.toId];
      var left, more := sender.balance - row.amount, receiver.balance + row.amount;
      Db(db.accounts[row.fromId := sender.(balance := left, updatedAt := debitAt)]
                    [row.toId := receiver.(balance := more, updatedAt := creditAt)],
         db.transactions[row.id := row],
         db.outbox + [DebitEvent(row, left / 100), CreditEvent(row, more / 100)])
  }

  ghost function OpeningsAfter(openings: Openings, change: Change): Openings
    requires change.Opened? ==> WholeCents(change.account.balance)
  {
    if change.Opened?
    then openings[change.account.id := Money(change.account.balance / 100, change.account.currency)] else openings
  }

  // ----- The tables are well formed -----------------------------------------------

  ghost predicate TidyAccounts(accounts: map<AccountId, AccountRow>, openings: Openings) {
    && openings.Keys == accounts.Keys
    && forall a :: a in accounts ==>
         accounts[a].id == a && WholeCents(accounts[a].balance) && openings[a].currency == accounts[a].currency
  }

  /** The account is there and of that currency. */
  ghost predicate Holds(accounts: map<AccountId, AccountRow>, a: AccountId, currency: Currency) {
    a in accounts && accounts[a].currency == currency
  }

  ghost predicate TidyTransaction(t: TransactionId, row: TransactionRow, accounts: map<AccountId, AccountRow>) {
    && row.id == t && row.fromId != row.toId && WholeCents(row.amount) && row.amount > 0
    && (row.status == Failed || row.status == Completed)
    && (row.status == Completed ==>
          Holds(accounts, row.fromId, row.currency) && Holds(accounts, row.toId, row.currency))
  }

  ghost predicate TidyTransactions(db: Db) {
    forall t :: t in db.transactions ==> TidyTransaction(t, db.transactions[t], db.accounts)
  }

  /** The unique index on the idempotency key. */
  ghost predicate KeysUnique(transactions: map<TransactionId, TransactionRow>) {
    forall t, u :: t in transactions && u in transactions && transactions[t].key == transactions[u].key ==> t == u
  }

  ghost predicate Tidy(db: Db, openings: Openings) {
    TidyAccounts(db.accounts, openings) && TidyTransactions(db) && KeysUnique(db.transactions)
  }

  /** No change removes an account or changes its id or currency. */
  lemma ChangeKeepsHolders(db: Db, change: Change)
    requires Permitted(db, change)
    ensures db.accounts.Keys <= Changed(db, change).accounts.Keys
    ensures forall a :: a in db.accounts ==>
              && Changed(db, change).accounts[a].currency == db.accounts[a].currency
              && Changed(db, change).accounts[a].id == db.accounts[a].id
  {
  }

  lemma ChangeKeepsTidyAccounts(db: Db, openings: Openings, change: Change)
    requires TidyAccounts(db.accounts, openings) && Permitted(db, change)
    ensures TidyAccounts(Changed(db, change).accounts, OpeningsAfter(openings, change))
  {
    match change {
      case Nothing =>
      case Refused(_, _) =>
      case StatusSet(id, status, at) =>
      case Opened(row) =>
      case Transferred(row, debitAt, creditAt) =>
        assert Changed(db, change).accounts.Keys == db.accounts.Keys;
    }
  }

  lemma ChangeKeepsTidyTransactions(db: Db, change: Change)
    requires TidyTransactions(db) && Permitted(db, change)
    ensures TidyTransactions(Changed(db, change))
  {
    ChangeKeepsHolders(db, change);
    var db' := Changed(db, change);
    forall t | t in db'.transactions
      ensures TidyTransaction(t, db'.transactions[t], db'.accounts)
    {
      assert t in db.transactions ==> TidyTransaction(t, db.transactions[t], db.accounts);
    }
  }

  lemma NewKeyStaysUnique(db: Db, row: TransactionRow)
    requires KeysUnique(db.transactions) && !KeyUsed(db, row.key) && row.id !in db.transactions
    ensures KeysUnique(db.transactions[row.id := row])
  {
  }

  lemma ChangeKeepsTidy(db: Db, openings: Openings, change: Change)
    requires Tidy(db, openings) && Permitted(db, change)
    ensures Tidy(Changed(db, change), OpeningsAfter(openings, change))
  {
    ChangeKeepsTidyAccounts(db, openings, change);
    ChangeKeepsTidyTransactions(db, change);
    if change.Refused? || change.Transferred? {
      NewKeyStaysUnique(db, change.row);
    }
  }

  // ----- Ledger ---------------------------------------------------------------------

  function In(a: AccountId): TransactionRow -> int {
    (row: TransactionRow) => if row.status == Completed && row.toId == a then row.amount else 0
  }

  function Out(a: AccountId): TransactionRow -> int {
    (row: TransactionRow) => if row.status == Completed && row.fromId == a then row.amount else 0
  }

  /** Opening balance plus completed incoming minus completed outgoing; failed rows count for nothing. */
  ghost predicate Reconciled(db: Db, openings: Openings, a: AccountId)
    requires a in db.accounts && a in openings
  {
    db.accounts[a].balance
    == 100 * openings[a].cents + Sum(db.transactions, In(a)) - Sum(db.transactions, Out(a))
  }

  /** No transaction row names an account that has not been opened, unless it failed. */
  lemma {:induction false} NoFlow(m: map<TransactionId, TransactionRow>, a: AccountId)
    requires forall t :: t in m && m[t].status == Completed ==> m[t].fromId != a && m[t].toId != a
    ensures Sum(m, In(a)) == 0 && Sum(m, Out(a)) == 0
    decreases |m|
  {
    if |m| != 0 {
      NoFlow(Without(m, Pick(m)), a);
    }
  }

  lemma ChangeKeepsReconciled(db: Db, openings: Openings, change: Change, a: AccountId)
    requires Tidy(db, openings) && Permitted(db, change) && a in Changed(db, change).accounts
    requires a in db.accounts ==> Reconciled(db, openings, a)
    ensures a in OpeningsAfter(openings, change)
    ensures Reconciled(Changed(db, change), OpeningsAfter(openings, change), a)
  {
    hide Sum;
    match change {
      case Nothing =>
      case StatusSet(_, _, _) =>
      case Opened(row) =>
        if a == row.id {
          assert forall t :: t in db.transactions ==> TidyTransaction(t, db.transactions[t], db.accounts);
          NoFlow(db.transactions, a);
        }
      case Refused(row, _) => FlowAdded(db.transactions, row, a);
      case Transferred(row, _, _) => FlowAdded(db.transactions, row, a);
    }
  }

  lemma FlowAdded(m: map<TransactionId, TransactionRow>, row: TransactionRow, a: AccountId)
    requires row.id !in m
    ensures Sum(m[row.id := row], In(a))
         == Sum(m, In(a)) + if row.status == Completed && row.toId == a then row.amount else 0
    ensures Sum(m[row.id := row], Out(a))
         == Sum(m, Out(a)) + if row.status == Completed && row.fromId == a then row.amount else 0
  {
    SumAdd(m, In(a), row.id, row);
    SumAdd(m, Out(a), row.id, row);
  }

  // ----- Conservation --------------------------------------------------------------

  function BalanceIn(currency: Currency): AccountRow -> int {
    (row: AccountRow) => if row.currency == currency then row.balance else 0
  }

  function OpeningIn(currency: Currency): Money -> int {
    (m: Money) => if m.currency == currency then 100 * m.cents else 0
  }

  /** All the money there is in one currency is what accounts of that currency were opened with. */
  ghost predicate Conserved(db: Db, openings: Openings, currency: Currency) {
    Sum(db.accounts, BalanceIn(currency)) == Sum(openings, OpeningIn(currency))
  }

  lemma ChangeKeepsConserved(db: Db, openings: Openings, change: Change, currency: Currency)
    requires Tidy(db, openings) && Permitted(db, change) && Conserved(db, openings, currency)
    ensures Conserved(Changed(db, change), OpeningsAfter(openings, change), currency)
  {
    hide Sum;
    match change {
      case Nothing =>
      case Refused(_, _) =>
      case StatusSet(id, status, at) =>
        SumReplace(db.accounts, BalanceIn(currency), id, db.accounts[id].(status := status, updatedAt := at));
      case Opened(row) =>
        SumAdd(db.accounts, BalanceIn(currency), row.id, row);
        SumAdd(openings, OpeningIn(currency), row.id, Money(row.balance / 100, row.currency));
      case Transferred(row, debitAt, creditAt) =>
        MoveConserves(db, row, debitAt, creditAt, currency);
    }
  }

  lemma MoveConserves(db: Db, row: TransactionRow, debitAt: Time, creditAt: Time, currency: Currency)
    requires Permitted(db, Transferred(row, debitAt, creditAt))
    ensures Sum(Changed(db, Transferred(row, debitAt, creditAt)).accounts, BalanceIn(currency))
         == Sum(db.accounts, BalanceIn(currency))
  {
    hide Sum;
    var sender, receiver := db.accounts[row.fromId], db.accounts[row.toId];
    SumReplaceTwo(db.accounts, BalanceIn(currency),
                  row.fromId, sender.(balance := sender.balance - row.amount, updatedAt := debitAt),
                  row.toId, receiver.(balance := receiver.balance + row.amount, updatedAt := creditAt));
  }

  // ----- The outbox ------------------------------------------------------------------

  /** An outbox message that says a balance moved. */
  predicate Moves(e: DomainEvent) {
    e.OfAccount? && (e.account.BalanceDebited? || e.account.BalanceCredited?)
  }

  predicate AllMove(outbox: seq<DomainEvent>) {
    forall i :: 0 <= i < |outbox| ==> Moves(outbox[i])
  }

  /** The messages about one transaction, in order. */
  function About(outbox: seq<DomainEvent>, t: TransactionId): seq<DomainEvent>
    requires AllMove(outbox)
  {
    if outbox == [] then []
    else
      var last := outbox[|outbox| - 1];
      About(outbox[..|outbox| - 1], t) + (if last.account.transactionId == t then [last] else [])
  }

  predicate IsDebitOf(e: DomainEvent, row: TransactionRow) {
    && e.OfAccount? && e.account.BalanceDebited? && e.account.accountId == row.fromId
    && e.account.transactionId == row.id && 100 * e.account.amount == row.amount && e.account.currency == row.currency
  }

  predicate IsCreditOf(e: DomainEvent, row: TransactionRow) {
    && e.OfAccount? && e.account.BalanceCredited? && e.account.accountId == row.toId
    && e.account.transactionId == row.id && 100 * e.account.amount == row.amount && e.account.currency == row.currency
  }

  /** A completed transfer has one debit and one credit message, a failed one at most the debit. */
  predicate MessagesFit(row: TransactionRow, messages: seq<DomainEvent>) {
    if row.status == Completed
    then |messages| == 2 && IsDebitOf(messages[0], row) && IsCreditOf(messages[1], row)
    else messages == [] || (|messages| == 1 && IsDebitOf(messages[0], row))
  }

  ghost predicate OutboxTidy(db: Db) {
    && AllMove(db.outbox)
    && (forall i :: 0 <= i < |db.outbox| ==> db.outbox[i].account.transactionId in db.transactions)
    && (forall i :: 0 <= i < |db.outbox| ==> db.outbox[i].account.accountId in db.accounts)
    && (forall t :: t in db.transactions ==> MessagesFit(db.transactions[t], About(db.outbox, t)))
  }

  lemma {:induction false} AboutNobody(outbox: seq<DomainEvent>, t: TransactionId)
    requires AllMove(outbox) && forall i :: 0 <= i < |outbox| ==> outbox[i].account.transactionId != t
    ensures About(outbox, t) == []
  {
    if outbox != [] {
      AboutNobody(outbox[..|outbox| - 1], t);
    }
  }

  lemma ChangeKeepsOutboxTidy(db: Db, change: Change)
    requires OutboxTidy(db) && Permitted(db, change)
    ensures OutboxTidy(Changed(db, change))
  {
    match change {
      case Nothing =>
      case Opened(_) =>
      case StatusSet(_, _, _) =>
      case Refused(row, debited) =>
        if debited.Some? {
          MessagesAppended(db, row, [DebitEvent(row, debited.value)]);
        } else {
          MessagesAppended(db, row, []);
          assert db.outbox + [] == db.outbox;
        }
      case Transferred(row, _, _) =>
        var left := (db.accounts[row.fromId].balance - row.amount) / 100;
        var more := (db.accounts[row.toId].balance + row.amount) / 100;
        MessagesAppended(db, row, [DebitEvent(row, left), CreditEvent(row, more)]);
        assert Changed(db, change).accounts.Keys == db.accounts.Keys;
    }
  }

  lemma MessagesAppended(db: Db, row: TransactionRow, messages: seq<DomainEvent>)
    requires OutboxTidy(db) && row.id !in db.transactions
    requires AllMove(messages) && forall i :: 0 <= i < |messages| ==> messages[i].account.transactionId == row.id
    requires forall i :: 0 <= i < |messages| ==> messages[i].account.accountId in db.accounts
    requires MessagesFit(row, messages)
    ensures OutboxTidy(db.(transactions := db.transactions[row.id := row], outbox := db.outbox + messages))
  {
    hide About;
    AboutNobody(db.outbox, row.id);
    var transactions, outbox := db.transactions[row.id := row], db.outbox + messages;
    forall t | t in transactions
      ensures MessagesFit(transactions[t], About(outbox, t))
    {
      AboutConcat(db.outbox, messages, row.id, t);
      assert t != row.id ==> About(outbox, t) == About(db.outbox, t);
      assert t == row.id ==> About(outbox, t) == messages;
    }
  }

  lemma {:induction false} AboutConcat(outbox: seq<DomainEvent>, messages: seq<DomainEvent>, u: TransactionId,
                                       t: TransactionId)
    requires AllMove(outbox) && AllMove(messages)
    requires forall i :: 0 <= i < |messages| ==> messages[i].account.transactionId == u
    ensures AllMove(outbox + messages)
    ensures About(outbox + messages, t) == About(outbox, t) + if t == u then messages else []
  {
    if messages == [] {
      assert outbox + messages == outbox;
    } else {
      var n := |messages| - 1;
      AboutConcat(outbox, messages[..n], u, t);
      assert (outbox + messages)[..|outbox + messages| - 1] == outbox + messages[..n];
      assert messages == messages[..n] + [messages[n]];
    }
  }

  // ----- Reading the outbox of one account -------------------------------------------

  /**
    What the outbox says about one account: `running` is the balance that the
    messages of completed transfers arrive at, `None` once a `balance_after` is not
    the previous one plus or minus the amount; `net` is what all messages add up to;
    `phantom` is the sum of the debits that no completed transfer stands behind.
  */
  datatype Reading = Reading(running: Option<int>, net: int, phantom: int)

  function Delta(e: AccountEvent): int
    requires e.BalanceDebited? || e.BalanceCredited?
  {
    if e.BalanceDebited? then -(e.amount as int) else e.amount
  }

  predicate IsCompleted(transactions: map<TransactionId, TransactionRow>, t: TransactionId) {
    t in transactions && transactions[t].status == Completed
  }

  function ReadOne(r: Reading, e: AccountEvent, a: AccountId, completed: bool): Reading
    requires e.BalanceDebited? || e.BalanceCredited?
  {
    if e.accountId != a then r
    else if !completed then r.(net := r.net + Delta(e), phantom := r.phantom - Delta(e))
    else
      Reading(if r.running.Some? && e.balanceAfter == r.running.value + Delta(e) then Some(e.balanceAfter) else None,
              r.net + Delta(e), r.phantom)
  }

  function Read(outbox: seq<DomainEvent>, transactions: map<TransactionId, TransactionRow>, a: AccountId,
                opening: int): Reading
    requires AllMove(outbox)
  {
    if outbox == [] then Reading(Some(opening), 0, 0)
    else
      var last := outbox[|outbox| - 1].account;
      ReadOne(Read(outbox[..|outbox| - 1], transactions, a, opening), last, a,
              IsCompleted(transactions, last.transactionId))
  }

  /** The outbox tells the true story of account `a`: running balances and, phantoms aside, the sum. */
  ghost predicate Agrees(db: Db, openings: Openings, a: AccountId)
    requires AllMove(db.outbox) && a in db.accounts && a in openings
  {
    var r := Read(db.outbox, db.transactions, a, openings[a].cents);
    && r.running.Some? && 100 * r.running.value == db.accounts[a].balance
    && r.running.value == openings[a].cents + r.net + r.phantom
  }

  lemma {:induction false} ReadFrame(outbox: seq<DomainEvent>, transactions: map<TransactionId, TransactionRow>,
                                     row: TransactionRow, a: AccountId, opening: int)
    requires AllMove(outbox) && row.id !in transactions
    requires forall i :: 0 <= i < |outbox| ==> outbox[i].account.transactionId in transactions
    ensures Read(outbox, transactions[row.id := row], a, opening) == Read(outbox, transactions, a, opening)
  {
    if outbox != [] {
      ReadFrame(outbox[..|outbox| - 1], transactions, row, a, opening);
      assert outbox[|outbox| - 1].account.transactionId in transactions;
    }
  }

  lemma {:induction false} ReadNothing(outbox: seq<DomainEvent>, transactions: map<TransactionId, TransactionRow>,
                                       a: AccountId, opening: int)
    requires AllMove(outbox) && forall i :: 0 <= i < |outbox| ==> outbox[i].account.accountId != a
    ensures Read(outbox, transactions, a, opening) == Reading(Some(opening), 0, 0)
  {
    if outbox != [] {
      ReadNothing(outbox[..|outbox| - 1], transactions, a, opening);
    }
  }

  lemma ReadAppend(outbox: seq<DomainEvent>, e: DomainEvent, transactions: map<TransactionId, TransactionRow>,
                   a: AccountId, opening: int)
    requires AllMove(outbox) && Moves(e)
    ensures AllMove(outbox + [e])
    ensures Read(outbox + [e], transactions, a, opening)
         == ReadOne(Read(outbox, transactions, a, opening), e.account, a,
                    IsCompleted(transactions, e.account.transactionId))
  {
    assert (outbox + [e])[..|outbox|] == outbox;
  }

  lemma ChangeKeepsAgrees(db: Db, openings: Openings, change: Change, a: AccountId)
    requires Tidy(db, openings) && OutboxTidy(db) && Permitted(db, change)
    requires a in Changed(db, change).accounts && a in OpeningsAfter(openings, change)
    requires a in db.accounts ==> Agrees(db, openings, a)
    requires OutboxTidy(Changed(db, change))
    ensures Agrees(Changed(db, change), OpeningsAfter(openings, change), a)
  {
    hide Read, About;
    match change {
      case Nothing =>
      case StatusSet(_, _, _) =>
      case Opened(row) =>
        if a == row.id {
          ReadNothing(db.outbox, db.transactions, a, row.balance / 100);
        }
      case Refused(row, debited) => RefusalAgrees(db, openings, row, debited, a);
      case Transferred(row, debitAt, creditAt) => TransferAgrees(db, openings, row, debitAt, creditAt, a);
    }
  }

  lemma RefusalAgrees(db: Db, openings: Openings, row: TransactionRow, debited: Option<Cents>, a: AccountId)
    requires Tidy(db, openings) && OutboxTidy(db) && Permitted(db, Refused(row, debited))
    requires a in db.accounts && Agrees(db, openings, a)
    ensures AllMove(Changed(db, Refused(row, debited)).outbox)
    ensures Agrees(Changed(db, Refused(row, debited)), openings, a)
  {
    hide Read, About;
    var transactions := db.transactions[row.id := row];
    ReadFrame(db.outbox, db.transactions, row, a, openings[a].cents);
    if debited.Some? {
      ReadAppend(db.outbox, DebitEvent(row, debited.value), transactions, a, openings[a].cents);
    } else {
      assert db.outbox + [] == db.outbox;
    }
  }

  lemma TransferAgrees(db: Db, openings: Openings, row: TransactionRow, debitAt: Time, creditAt: Time, a: AccountId)
    requires Tidy(db, openings) && OutboxTidy(db) && Permitted(db, Transferred(row, debitAt, creditAt))
    requires a in db.accounts && Agrees(db, openings, a)
    ensures AllMove(Changed(db, Transferred(row, debitAt, creditAt)).outbox)
    ensures Agrees(Changed(db, Transferred(row, debitAt, creditAt)), openings, a)
  {
    hide Read, About;
    var transactions := db.transactions[row.id := row];
    var d := DebitEvent(row, (db.accounts[row.fromId].balance - row.amount) / 100);
    var c := CreditEvent(row, (db.accounts[row.toId].balance + row.amount) / 100);
    ReadFrame(db.outbox, db.transactions, row, a, openings[a].cents);
    ReadAppend(db.outbox, d, transactions, a, openings[a].cents);
    ReadAppend(db.outbox + [d], c, transactions, a, openings[a].cents);
    assert db.outbox + [d] + [c] == db.outbox + [d, c];
  }

  // ----- The outbox without the filter -------------------------------------------------

  /** A debit message of account `a` whose transfer failed. */
  predicate IsPhantom(e: DomainEvent, transactions: map<TransactionId, TransactionRow>, a: AccountId)
    requires Moves(e)
  {
    e.account.accountId == a && !IsCompleted(transactions, e.account.transactionId)
  }

  /** The agreement as documented: opening balance plus all messages about the account is the stored balance. */
  ghost predicate AddsUp(db: Db, openings: Openings, a: AccountId)
    requires AllMove(db.outbox) && a in db.accounts && a in openings
  {
    db.accounts[a].balance == 100 * (openings[a].cents + Read(db.outbox, db.transactions, a, openings[a].cents).net)
  }

  lemma {:induction false} PhantomSum(outbox: seq<DomainEvent>, transactions: map<TransactionId, TransactionRow>,
                                      a: AccountId, opening: int)
    requires AllMove(outbox)
    requires forall i :: 0 <= i < |outbox| && IsPhantom(outbox[i], transactions, a) ==>
               outbox[i].account.BalanceDebited? && outbox[i].account.amount > 0
    ensures Read(outbox, transactions, a, opening).phantom >= 0
    ensures Read(outbox, transactions, a, opening).phantom == 0
        <==> forall i :: 0 <= i < |outbox| ==> !IsPhantom(outbox[i], transactions, a)
  {
    if outbox != [] {
      var init := outbox[..|outbox| - 1];
      PhantomSum(init, transactions, a, opening);
      assert forall i :: 0 <= i < |init| ==> init[i] == outbox[i];
    }
  }

  lemma {:induction false} MessageIsAbout(outbox: seq<DomainEvent>, i: nat)
    requires AllMove(outbox) && i < |outbox|
    ensures outbox[i] in About(outbox, outbox[i].account.transactionId)
  {
    if i < |outbox| - 1 {
      MessageIsAbout(outbox[..|outbox| - 1], i);
    }
  }

  /**
    Without restricting the outbox to completed transfers the documented agreement
    holds for an account exactly when the outbox has no debit of it whose transfer
    failed. (`PhantomDebits.OutboxAddsUpIff` says which requests leave one.)
  */
  lemma UnfilteredOutboxAgreesIff(db: Db, openings: Openings, a: AccountId)
    requires Tidy(db, openings) && OutboxTidy(db) && a in db.accounts && Agrees(db, openings, a)
    ensures AddsUp(db, openings, a)
        <==> forall i :: 0 <= i < |db.outbox| ==> !IsPhantom(db.outbox[i], db.transactions, a)
  {
    hide Read, About, TidyTransactions, KeysUnique;
    forall i | 0 <= i < |db.outbox| && IsPhantom(db.outbox[i], db.transactions, a)
      ensures db.outbox[i].account.BalanceDebited? && db.outbox[i].account.amount > 0
    {
      PhantomIsDebit(db, a, i);
    }
    PhantomSum(db.outbox, db.transactions, a, openings[a].cents);
  }

  lemma PhantomIsDebit(db: Db, a: AccountId, i: nat)
    requires TidyTransactions(db) && OutboxTidy(db) && i < |db.outbox| && IsPhantom(db.outbox[i], db.transactions, a)
    ensures db.outbox[i].account.BalanceDebited? && db.outbox[i].account.amount > 0
  {
    hide About;
    var t := db.outbox[i].account.transactionId;
    MessageIsAbout(db.outbox, i);
    assert MessagesFit(db.transactions[t], About(db.outbox, t));
    assert TidyTransaction(t, db.transactions[t], db.accounts);
  }
}
