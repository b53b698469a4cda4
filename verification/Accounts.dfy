/**
  The account aggregate. `AccountState` is the value of an account together with
  the events it has not yet handed out; the functions say what one operation
  makes of that value or which exception it raises; the class does it in place.
*/
module Accounts {
  import opened Prelude
  import opened Decimals
  import opened Domain
  import opened MoneyValues

  datatype AccountState = AccountState(
    id: AccountId, ownerId: OwnerId, number: string, balance: Money, status: AccountStatus,
    createdAt: Time, updatedAt: Time, pending: seq<AccountEvent>)

  // ----- What each operation does ---------------------------------------------

  function Created(id: AccountId, ownerId: OwnerId, number: string, currency: Currency,
                   initial: Option<Money>, createdAt: Time, updatedAt: Time): Result<AccountState, Error>
  {
    var balance := if initial.Some? then initial.value else Money(0, currency);
    if balance.currency != currency then Err(CurrencyMismatch)
    else Ok(AccountState(id, ownerId, number, balance, Active, createdAt, updatedAt,
                         [AccountCreated(id, ownerId, balance.currency, balance.cents)]))
  }

  function Debited(a: AccountState, amount: Money, txId: TransactionId, now: Time): Result<AccountState, Error> {
    if a.status == Closed then Err(AccountIsClosed)
    else if a.status == Frozen then Err(AccountIsFrozen)
    else
      match Subtract(a.balance, amount)
      case Err(e) => Err(e)
      case Ok(left) =>
        Ok(a.(balance := left, updatedAt := now,
              pending := a.pending + [BalanceDebited(a.id, txId, amount.cents, amount.currency, left.cents)]))
  }

  function Credited(a: AccountState, amount: Money, txId: TransactionId, now: Time): Result<AccountState, Error> {
    if a.status == Closed then Err(AccountIsClosed)
    else if a.status == Frozen then Err(AccountIsFrozen)
    else
      match Add(a.balance, amount)
      case Err(e) => Err(e)
      case Ok(more) =>
        Ok(a.(balance := more, updatedAt := now,
              pending := a.pending + [BalanceCredited(a.id, txId, amount.cents, amount.currency, more.cents)]))
  }

  function FrozenOf(a: AccountState, reason: string, now: Time): Result<AccountState, Error> {
    if a.status == Closed then Err(AccountIsClosed)
    else if a.status == Frozen then Ok(a)
    else Ok(a.(status := Frozen, updatedAt := now, pending := a.pending + [AccountFrozen(a.id, a.ownerId, reason)]))
  }

  function UnfrozenOf(a: AccountState, now: Time): Result<AccountState, Error> {
    if a.status == Closed then Err(AccountIsClosed)
    else if a.status == Active then Ok(a)
    else Ok(a.(status := Active, updatedAt := now, pending := a.pending + [AccountUnfrozen(a.id, a.ownerId)]))
  }

  function ClosedOf(a: AccountState, now: Time): Result<AccountState, Error> {
    if a.status == Closed then Err(AccountIsClosed)
    else if !a.balance.IsZero() then Err(AccountNotEmpty)
    else Ok(a.(status := Closed, updatedAt := now, pending := a.pending + [AccountClosed(a.id, a.ownerId)]))
  }

  /** A debit goes through exactly on an active account of that currency holding enough. */
  lemma DebitSucceedsIff(a: AccountState, amount: Money, txId: TransactionId, now: Time)
    ensures Debited(a, amount, txId, now).Ok?
        <==> a.status == Active && a.balance.currency == amount.currency && amount.cents <= a.balance.cents
    ensures Debited(a, amount, txId, now).Ok? ==>
              Debited(a, amount, txId, now).value.balance == Money(a.balance.cents - amount.cents, amount.currency)
  {
    SubtractIsExactOrRaises(a.balance, amount);
  }

  /** A credit goes through exactly on an active account of that currency whose sum fits the context. */
  lemma CreditSucceedsIff(a: AccountState, amount: Money, txId: TransactionId, now: Time)
    ensures Credited(a, amount, txId, now).Ok?
        <==> a.status == Active && a.balance.currency == amount.currency
             && a.balance.cents + amount.cents < COEFFICIENT_LIMIT
    ensures Credited(a, amount, txId, now).Ok? ==>
              Credited(a, amount, txId, now).value.balance == Money(a.balance.cents + amount.cents, amount.currency)
  {
    AddIsExactOrRaises(a.balance, amount);
  }

  /** An account is opened with what it is given, or with nothing, active, and says so in its first event. */
  lemma CreateMeans(id: AccountId, ownerId: OwnerId, number: string, currency: Currency, initial: Option<Money>,
                    createdAt: Time, updatedAt: Time)
    ensures var c := Created(id, ownerId, number, currency, initial, createdAt, updatedAt);
      if initial.Some? && initial.value.currency != currency then c == Err(CurrencyMismatch)
      else
        && c.Ok? && c.value.balance.currency == currency
        && c.value.balance.cents == (if initial.Some? then initial.value.cents else 0)
        && c.value.id == id && c.value.ownerId == ownerId && c.value.number == number && c.value.status == Active
        && c.value.createdAt == createdAt && c.value.updatedAt == updatedAt
        && c.value.pending == [AccountCreated(id, ownerId, currency, c.value.balance.cents)]
  {
  }

  /** What no operation changes: identity and the time of creation. */
  predicate SameAccount(a: AccountState, b: AccountState) {
    b.id == a.id && b.ownerId == a.ownerId && b.number == a.number && b.createdAt == a.createdAt
  }

  /** Who may not pay, and why; a debit takes the amount, notes the time and records both amount and what is left. */
  lemma DebitMeans(a: AccountState, amount: Money, txId: TransactionId, now: Time)
    ensures var d := Debited(a, amount, txId, now);
      && (a.status == Closed ==> d == Err(AccountIsClosed))
      && (a.status == Frozen ==> d == Err(AccountIsFrozen))
      && (a.status == Active && a.balance.currency != amount.currency ==> d == Err(CurrencyMismatch))
      && (a.status == Active && a.balance.currency == amount.currency && a.balance.cents < amount.cents ==>
            d == Err(InsufficientFunds))
      && (a.status == Active && a.balance.currency == amount.currency && a.balance.cents >= amount.cents ==>
            && d.Ok? && SameAccount(a, d.value) && d.value.status == Active && d.value.updatedAt == now
            && d.value.balance.cents == a.balance.cents - amount.cents && d.value.balance.currency == amount.currency
            && d.value.pending
               == a.pending + [BalanceDebited(a.id, txId, amount.cents, amount.currency,
                                              a.balance.cents - amount.cents)])
  {
    SubtractIsExactOrRaises(a.balance, amount);
  }

  /** The same of a credit, which fails last of all for a sum of more than 28 digits. */
  lemma CreditMeans(a: AccountState, amount: Money, txId: TransactionId, now: Time)
    ensures var c := Credited(a, amount, txId, now);
      && (a.status == Closed ==> c == Err(AccountIsClosed))
      && (a.status == Frozen ==> c == Err(AccountIsFrozen))
      && (a.status == Active && a.balance.currency != amount.currency ==> c == Err(CurrencyMismatch))
      && (a.status == Active && a.balance.currency == amount.currency ==>
            if a.balance.cents + amount.cents >= COEFFICIENT_LIMIT then c == Err(InvalidDecimal)
            else
              && c.Ok? && SameAccount(a, c.value) && c.value.status == Active && c.value.updatedAt == now
              && c.value.balance.cents == a.balance.cents + amount.cents && c.value.balance.currency == amount.currency
              && c.value.pending
                 == a.pending + [BalanceCredited(a.id, txId, amount.cents, amount.currency,
                                                 a.balance.cents + amount.cents)])
  {
    AddIsExactOrRaises(a.balance, amount);
  }

  /**
    Freezing an active account is accepted, recorded with its reason and leaves the money
    where it is; a frozen account stays as it is, a closed one refuses. On whatever was
    frozen, no debit and no credit goes through any more.
  */
  lemma FreezeMeans(a: AccountState, reason: string, now: Time, amount: Money, txId: TransactionId, later: Time)
    ensures var f := FrozenOf(a, reason, now);
      && (a.status == Closed ==> f == Err(AccountIsClosed))
      && (a.status == Frozen ==> f == Ok(a))
      && (a.status == Active ==>
            && f.Ok? && SameAccount(a, f.value) && f.value.status == Frozen && f.value.balance == a.balance
            && f.value.updatedAt == now && f.value.pending == a.pending + [AccountFrozen(a.id, a.ownerId, reason)])
      && (f.Ok? ==> Debited(f.value, amount, txId, later) == Err(AccountIsFrozen)
                    && Credited(f.value, amount, txId, later) == Err(AccountIsFrozen))
  {
  }

  /**
    Unfreezing a frozen account is accepted and recorded; it can pay and receive again
    just as an active account with its balance can.
  */
  lemma UnfreezeMeans(a: AccountState, now: Time, amount: Money, txId: TransactionId, later: Time)
    ensures var u := UnfrozenOf(a, now);
      && (a.status == Closed ==> u == Err(AccountIsClosed))
      && (a.status == Active ==> u == Ok(a))
      && (a.status == Frozen ==>
            && u.Ok? && SameAccount(a, u.value) && u.value.status == Active && u.value.balance == a.balance
            && u.value.updatedAt == now && u.value.pending == a.pending + [AccountUnfrozen(a.id, a.ownerId)])
      && (u.Ok? && a.balance.currency == amount.currency ==>
            && (Debited(u.value, amount, txId, later).Ok? <==> amount.cents <= a.balance.cents)
            && (Credited(u.value, amount, txId, later).Ok? <==> a.balance.cents + amount.cents < COEFFICIENT_LIMIT))
  {
    if UnfrozenOf(a, now).Ok? {
      DebitSucceedsIff(UnfrozenOf(a, now).value, amount, txId, later);
      CreditSucceedsIff(UnfrozenOf(a, now).value, amount, txId, later);
    }
  }

  /** Closing is accepted exactly for an account that is empty and not closed, frozen or not, and recorded. */
  lemma CloseMeans(a: AccountState, now: Time, amount: Money, txId: TransactionId, later: Time)
    ensures var c := ClosedOf(a, now);
      && (a.status == Closed ==> c == Err(AccountIsClosed))
      && (a.status != Closed && a.balance.cents != 0 ==> c == Err(AccountNotEmpty))
      && (a.status != Closed && a.balance.cents == 0 ==>
            && c.Ok? && SameAccount(a, c.value) && c.value.status == Closed && c.value.balance == a.balance
            && c.value.updatedAt == now && c.value.pending == a.pending + [AccountClosed(a.id, a.ownerId)])
      && (c.Ok? ==> Debited(c.value, amount, txId, later) == Err(AccountIsClosed)
                    && Credited(c.value, amount, txId, later) == Err(AccountIsClosed))
  {
  }

  // ----- The aggregate in place -----------------------------------------------

  class Account {
    var id: AccountId
    var ownerId: OwnerId
    var accountNumber: string
    var status: AccountStatus
    var balance: Money
    var createdAt: Time
    var updatedAt: Time
    var domainEvents: seq<AccountEvent>

    ghost function State(): AccountState
      reads this
    {
      AccountState(id, ownerId, accountNumber, balance, status, createdAt, updatedAt, domainEvents)
    }

    /** `Account.reconstitute`: rebuilt from storage, no event. */
    constructor Reconstitute(id: AccountId, ownerId: OwnerId, number: string, balance: Money,
                             status: AccountStatus, createdAt: Time, updatedAt: Time)
      ensures State() == AccountState(id, ownerId, number, balance, status, createdAt, updatedAt, [])
    {
      this.id, this.ownerId, this.accountNumber := id, ownerId, number;
      this.balance, this.status := balance, status;
      this.createdAt, this.updatedAt := createdAt, updatedAt;
      this.domainEvents := [];
    }

    /** `Account.create`: a new active account that has recorded its creation. */
    static method Create(id: AccountId, ownerId: OwnerId, number: string, currency: Currency,
                         initial: Option<Money>, createdAt: Time, updatedAt: Time)
      returns (r: Result<Account, Error>)
      ensures match Created(id, ownerId, number, currency, initial, createdAt, updatedAt)
              case Ok(a) => r.Ok? && fresh(r.value) && r.value.State() == a
              case Err(e) => r == Err(e)
    {
      var opening := if initial.Some? then initial.value else Money(0, currency);
      if opening.currency != currency {
        return Err(CurrencyMismatch);
      }
      var account := new Account.Reconstitute(id, ownerId, number, opening, Active, createdAt, updatedAt);
      account.RecordEvent(AccountCreated(id, ownerId, opening.currency, opening.cents));
      return Ok(account);
    }

    /** `AggregateRoot._record_event`. */
    method RecordEvent(event: AccountEvent)
      modifies this`domainEvents
      ensures domainEvents == old(domainEvents) + [event]
    {
      domainEvents := domainEvents + [event];
    }

    /** `AggregateRoot.collect_events`: hands the pending events out and forgets them. */
    method CollectEvents() returns (events: seq<AccountEvent>)
      modifies this`domainEvents
      ensures events == old(domainEvents) && domainEvents == []
    {
      events, domainEvents := domainEvents, [];
    }

    method AssertCanMoveMoney() returns (problem: Option<Error>)
      ensures problem == if status == Closed then Some(AccountIsClosed)
                         else if status == Frozen then Some(AccountIsFrozen) else None
    {
      if status == Closed {
        return Some(AccountIsClosed);
      }
      if status == Frozen {
        return Some(AccountIsFrozen);
      }
      return None;
    }

    method Debit(amount: Money, txId: TransactionId, now: Time) returns (raised: Option<Error>)
      modifies this
      ensures match Debited(old(State()), amount, txId, now)
              case Ok(a) => raised == None && State() == a
              case Err(e) => raised == Some(e) && State() == old(State())
    {
      raised := AssertCanMoveMoney();
      if raised.Some? {
        return;
      }
      var left := Subtract(balance, amount);
      if left.Err? {
        return Some(left.error);
      }
      balance := left.value;
      updatedAt := now;
      RecordEvent(BalanceDebited(id, txId, amount.cents, amount.currency, balance.cents));
    }

    method Credit(amount: Money, txId: TransactionId, now: Time) returns (raised: Option<Error>)
      modifies this
      ensures match Credited(old(State()), amount, txId, now)
              case Ok(a) => raised == None && State() == a
              case Err(e) => raised == Some(e) && State() == old(State())
    {
      raised := AssertCanMoveMoney();
      if raised.Some? {
        return;
      }
      var more := Add(balance, amount);
      if more.Err? {
        return Some(more.error);
      }
      balance := more.value;
      updatedAt := now;
      RecordEvent(BalanceCredited(id, txId, amount.cents, amount.currency, balance.cents));
    }

    method Freeze(reason: string, now: Time) returns (raised: Option<Error>)
      modifies this
      ensures match FrozenOf(old(State()), reason, now)
              case Ok(a) => raised == None && State() == a
              case Err(e) => raised == Some(e) && State() == old(State())
    {
      if status == Closed {
        return Some(AccountIsClosed);
      }
      if status == Frozen {
        return None;
      }
      status := Frozen;
      updatedAt := now;
      RecordEvent(AccountFrozen(id, ownerId, reason));
      return None;
    }

    method Unfreeze(now: Time) returns (raised: Option<Error>)
      modifies this
      ensures match UnfrozenOf(old(State()), now)
              case Ok(a) => raised == None && State() == a
              case Err(e) => raised == Some(e) && State() == old(State())
    {
      if status == Closed {
        return Some(AccountIsClosed);
      }
      if status == Active {
        return None;
      }
      status := Active;
      updatedAt := now;
      RecordEvent(AccountUnfrozen(id, ownerId));
      return None;
    }

    method Close(now: Time) returns (raised: Option<Error>)
      modifies this
      ensures match ClosedOf(old(State()), now)
              case Ok(a) => raised == None && State() == a
              case Err(e) => raised == Some(e) && State() == old(State())
    {
      if status == Closed {
        return Some(AccountIsClosed);
      }
      if !balance.IsZero() {
        return Some(AccountNotEmpty);
      }
      status := Closed;
      updatedAt := now;
      RecordEvent(AccountClosed(id, ownerId));
      return None;
    }
  }

  // ----- The event log determines the account ---------------------------------

  datatype Operation =
    | DebitOp(amount: Money, txId: TransactionId)
    | CreditOp(amount: Money, txId: TransactionId)
    | FreezeOp(reason: string)
    | UnfreezeOp
    | CloseOp
    | CollectOp

  /** An account and the events it has already handed out. */
  datatype Recorded = Recorded(account: AccountState, delivered: seq<AccountEvent>) {
    function History(): seq<AccountEvent> {
      delivered + account.pending
    }
  }

  function Attempt(a: AccountState, op: Operation, now: Time): Result<AccountState, Error>
    requires !op.CollectOp?
  {
    match op
    case DebitOp(amount, txId) => Debited(a, amount, txId, now)
    case CreditOp(amount, txId) => Credited(a, amount, txId, now)
    case FreezeOp(reason) => FrozenOf(a, reason, now)
    case UnfreezeOp => UnfrozenOf(a, now)
    case CloseOp => ClosedOf(a, now)
  }

  /** One operation; a rejected one leaves everything as it was. */
  function Perform(r: Recorded, op: Operation, now: Time): Recorded {
    if op.CollectOp? then Recorded(r.account.(pending := []), r.History())
    else
      match Attempt(r.account, op, now)
      case Ok(a) => r.(account := a)
      case Err(_) => r
  }

  function PerformAll(r: Recorded, ops: seq<(Operation, Time)>): Recorded {
    if ops == [] then r
    else Perform(PerformAll(r, ops[..|ops| - 1]), ops[|ops| - 1].0, ops[|ops| - 1].1)
  }

  /** What a reader of the events alone can know. Amounts are added up; `balanceAfter` is not looked at. */
  datatype Replayed = Replayed(balance: int, currency: Currency, status: AccountStatus)

  predicate StartsWithCreation(h: seq<AccountEvent>) {
    |h| > 0 && h[0].AccountCreated?
  }

  function ReplayOne(before: Replayed, e: AccountEvent): Replayed {
    match e
    case BalanceDebited(_, _, amount, _, _) => before.(balance := before.balance - amount)
    case BalanceCredited(_, _, amount, _, _) => before.(balance := before.balance + amount)
    case AccountFrozen(_, _, _) => before.(status := Frozen)
    case AccountUnfrozen(_, _) => before.(status := Active)
    case AccountClosed(_, _) => before.(status := Closed)
    case AccountCreated(_, _, _, _) => before
  }

  function Replay(h: seq<AccountEvent>): Replayed
    requires StartsWithCreation(h)
  {
    if |h| == 1 then Replayed(h[0].initialBalance, h[0].currency, Active)
    else ReplayOne(Replay(h[..|h| - 1]), h[|h| - 1])
  }

  function Visible(a: AccountState): Replayed {
    Replayed(a.balance.cents, a.balance.currency, a.status)
  }

  predicate IsBalanceEvent(e: AccountEvent) {
    e.BalanceDebited? || e.BalanceCredited?
  }

  /** Every `balanceAfter` is the balance that the amounts up to there add up to, in the account's currency. */
  ghost predicate BalancesAfterAgree(h: seq<AccountEvent>)
    requires StartsWithCreation(h)
  {
    forall i :: 0 < i < |h| && IsBalanceEvent(h[i]) ==>
      h[i].balanceAfter == Replay(h[..i + 1]).balance && h[i].currency == Replay(h[..i + 1]).currency
  }

  ghost predicate Sourced(r: Recorded) {
    && StartsWithCreation(r.History())
    && Replay(r.History()) == Visible(r.account)
    && BalancesAfterAgree(r.History())
    && (r.account.status == Closed ==> r.account.balance.cents == 0)
  }

  lemma AgreeAfterAppend(h: seq<AccountEvent>, e: AccountEvent)
    requires StartsWithCreation(h) && BalancesAfterAgree(h)
    requires IsBalanceEvent(e) ==>
               e.balanceAfter == Replay(h + [e]).balance && e.currency == Replay(h + [e]).currency
    ensures BalancesAfterAgree(h + [e])
  {
    var g := h + [e];
    forall i | 0 < i < |g| && IsBalanceEvent(g[i])
      ensures g[i].balanceAfter == Replay(g[..i + 1]).balance && g[i].currency == Replay(g[..i + 1]).currency
    {
      if i < |h| {
        assert g[..i + 1] == h[..i + 1];
      } else {
        assert g[..i + 1] == g;
      }
    }
  }

  /** What an accepted operation records is exactly what a reader of the log needs. */
  lemma AttemptRecords(a: AccountState, op: Operation, now: Time) returns (e: Option<AccountEvent>)
    requires !op.CollectOp? && Attempt(a, op, now).Ok?
    ensures var b := Attempt(a, op, now).value;
      match e
      case None => b == a
      case Some(e) =>
        && b.pending == a.pending + [e]
        && ReplayOne(Visible(a), e) == Visible(b)
        && (IsBalanceEvent(e) ==> e.balanceAfter == b.balance.cents && e.currency == b.balance.currency)
        && (b.status == Closed ==> b.balance.cents == 0)
  {
    var b := Attempt(a, op, now).value;
    match op {
      case DebitOp(amount, txId) =>
        DebitSucceedsIff(a, amount, txId, now);
        e := Some(BalanceDebited(a.id, txId, amount.cents, amount.currency, b.balance.cents));
      case CreditOp(amount, txId) =>
        CreditSucceedsIff(a, amount, txId, now);
        e := Some(BalanceCredited(a.id, txId, amount.cents, amount.currency, b.balance.cents));
      case FreezeOp(reason) =>
        e := if a.status == Frozen then None else Some(AccountFrozen(a.id, a.ownerId, reason));
      case UnfreezeOp =>
        e := if a.status == Active then None else Some(AccountUnfrozen(a.id, a.ownerId));
      case CloseOp =>
        e := Some(AccountClosed(a.id, a.ownerId));
    }
  }

  lemma AttemptKeepsSourced(r: Recorded, op: Operation, now: Time)
    requires Sourced(r) && !op.CollectOp? && Attempt(r.account, op, now).Ok?
    ensures Sourced(r.(account := Attempt(r.account, op, now).value))
    ensures r.History() <= r.(account := Attempt(r.account, op, now).value).History()
  {
    var recorded := AttemptRecords(r.account, op, now);
    var b := Attempt(r.account, op, now).value;
    if recorded.Some? {
      AppendKeepsSourced(r, b, recorded.value);
    }
  }

  lemma AppendKeepsSourced(r: Recorded, b: AccountState, e: AccountEvent)
    requires Sourced(r) && b.pending == r.account.pending + [e] && ReplayOne(Visible(r.account), e) == Visible(b)
    requires IsBalanceEvent(e) ==> e.balanceAfter == b.balance.cents && e.currency == b.balance.currency
    requires b.status == Closed ==> b.balance.cents == 0
    ensures Sourced(r.(account := b)) && r.History() <= r.(account := b).History()
  {
    var h, g := r.History(), r.(account := b).History();
    assert g == h + [e];
    assert g[..|g| - 1] == h;
    AgreeAfterAppend(h, e);
  }

  /**
    Event sourcing: after any operations, accepted or rejected, interleaved with
    any collecting of events, the log read from its creation event gives the
    balance, currency and status, and every running balance in it is right.
  */
  lemma {:induction false} LogDeterminesAccount(r: Recorded, ops: seq<(Operation, Time)>)
    requires Sourced(r)
    ensures Sourced(PerformAll(r, ops))
    ensures r.History() <= PerformAll(r, ops).History()
  {
    if ops != [] {
      var before := PerformAll(r, ops[..|ops| - 1]);
      var (op, now) := ops[|ops| - 1];
      LogDeterminesAccount(r, ops[..|ops| - 1]);
      if op.CollectOp? {
        assert Perform(before, op, now).History() == before.History();
      } else if Attempt(before.account, op, now).Ok? {
        AttemptKeepsSourced(before, op, now);
      }
    }
  }

  /** A newly created account starts such a log. */
  lemma CreationIsSourced(id: AccountId, ownerId: OwnerId, number: string, currency: Currency,
                          initial: Option<Money>, createdAt: Time, updatedAt: Time)
    ensures match Created(id, ownerId, number, currency, initial, createdAt, updatedAt)
            case Ok(a) => Sourced(Recorded(a, []))
            case Err(_) => initial.Some? && initial.value.currency != currency
  {
    var c := Created(id, ownerId, number, currency, initial, createdAt, updatedAt);
    if c.Ok? {
      assert Recorded(c.value, []).History() == c.value.pending;
    }
  }

  /** A closed account is empty and stays exactly as it is: no operation is accepted, no event is added. */
  lemma {:induction false} ClosedIsAbsorbing(r: Recorded, ops: seq<(Operation, Time)>)
    requires r.account.status == Closed && Sourced(r)
    ensures PerformAll(r, ops).account == r.account.(pending := PerformAll(r, ops).account.pending)
    ensures PerformAll(r, ops).History() == r.History()
    ensures r.account.balance.IsZero()
  {
    if ops != [] {
      ClosedIsAbsorbing(r, ops[..|ops| - 1]);
    }
  }
}
