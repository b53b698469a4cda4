/**
  The transaction aggregate: its state machine as functions on values, the class
  that runs it in place, and the language of its event histories.
*/
module Transactions {
  import opened Prelude
  import opened Domain

  datatype TransactionState = TransactionState(
    id: TransactionId, fromId: AccountId, toId: AccountId, amount: Money, kind: TransactionType,
    status: TransactionStatus, key: IdempotencyKey, failureCode: Option<string>, failureReason: Option<Error>,
    completedAt: Option<Time>, rollbackRequired: bool, createdAt: Time, updatedAt: Time,
    pending: seq<TransactionEvent>)
  {
    predicate NeedsRollback() {
      status == Failed && rollbackRequired
    }
  }

  // ----- What each operation does ---------------------------------------------

  function Initiated(id: TransactionId, fromId: AccountId, toId: AccountId, amount: Money, key: IdempotencyKey,
                     kind: TransactionType, createdAt: Time, updatedAt: Time): Result<TransactionState, Error>
  {
    if amount.IsZero() then Err(InvalidTransferAmount)
    else if fromId == toId then Err(SameAccountTransfer)
    else Ok(TransactionState(id, fromId, toId, amount, kind, Pending, key, None, None, None, false,
                             createdAt, updatedAt, [TransactionInitiated(id, fromId, toId, amount, key)]))
  }

  function ProcessingOf(t: TransactionState, now: Time): Result<TransactionState, Error> {
    if !t.status.CanProcess() then Err(TransactionAlreadyProcessing)
    else Ok(t.(status := Processing, updatedAt := now,
               pending := t.pending + [TransactionProcessing(t.id, t.fromId, t.toId, t.amount)]))
  }

  function CompletedOf(t: TransactionState, now: Time): Result<TransactionState, Error> {
    if !t.status.CanComplete() then Err(TransactionAlreadyCompleted)
    else Ok(t.(status := Completed, completedAt := Some(now), updatedAt := now,
               pending := t.pending + [TransactionCompleted(t.id, t.fromId, t.toId, t.amount)]))
  }

  function FailedOf(t: TransactionState, code: string, reason: Error, now: Time): Result<TransactionState, Error> {
    if !t.status.CanFail() then Err(TransactionNotFailable)
    else
      var required := t.status == Processing;
      Ok(t.(rollbackRequired := required, status := Failed, failureCode := Some(code), failureReason := Some(reason),
            updatedAt := now,
            pending := t.pending + [TransactionFailed(t.id, t.fromId, t.toId, t.amount, code, reason, required)]))
  }

  function RolledBackOf(t: TransactionState, now: Time): Result<TransactionState, Error> {
    if t.status != Failed then Err(TransactionRollback)
    else Ok(t.(updatedAt := now, pending := t.pending + [TransactionRolledBack(t.id, t.fromId, t.amount)]))
  }

  /** What no call changes. */
  predicate SameTransfer(t: TransactionState, u: TransactionState) {
    && t.id == u.id && t.fromId == u.fromId && t.toId == u.toId && t.amount == u.amount && t.kind == u.kind
    && t.key == u.key && t.createdAt == u.createdAt
  }

  /** Which transfers are refused at once, and what an accepted one starts as. */
  lemma InitiateMeans(id: TransactionId, fromId: AccountId, toId: AccountId, amount: Money, key: IdempotencyKey,
                      kind: TransactionType, createdAt: Time, updatedAt: Time)
    ensures var t := Initiated(id, fromId, toId, amount, key, kind, createdAt, updatedAt);
      && (amount.cents == 0 ==> t == Err(InvalidTransferAmount))
      && (amount.cents != 0 && fromId == toId ==> t == Err(SameAccountTransfer))
      && (amount.cents != 0 && fromId != toId ==>
            && t.Ok? && t.value.id == id && t.value.fromId == fromId && t.value.toId == toId && t.value.amount == amount
            && t.value.key == key && t.value.kind == kind && t.value.createdAt == createdAt
            && t.value.updatedAt == updatedAt && t.value.status == Pending && !t.value.rollbackRequired
            && t.value.failureCode == None && t.value.failureReason == None && t.value.completedAt == None
            && t.value.pending == [TransactionInitiated(id, fromId, toId, amount, key)])
  {
  }

  /** From which status each call is accepted, and what it leaves and records. */
  lemma LifecycleCallsMean(t: TransactionState, code: string, reason: Error, now: Time)
    ensures var p := ProcessingOf(t, now);
      if t.status != Pending then p == Err(TransactionAlreadyProcessing)
      else
        && p.Ok? && SameTransfer(p.value, t) && p.value.status == Processing && p.value.updatedAt == now
        && p.value.pending == t.pending + [TransactionProcessing(t.id, t.fromId, t.toId, t.amount)]
    ensures var c := CompletedOf(t, now);
      if t.status != Processing then c == Err(TransactionAlreadyCompleted)
      else
        && c.Ok? && SameTransfer(c.value, t) && c.value.status == Completed && c.value.updatedAt == now
        && c.value.completedAt == Some(now)
        && c.value.pending == t.pending + [TransactionCompleted(t.id, t.fromId, t.toId, t.amount)]
    ensures var f := FailedOf(t, code, reason, now);
      if t.status != Pending && t.status != Processing then f == Err(TransactionNotFailable)
      else
        && f.Ok? && SameTransfer(f.value, t) && f.value.status == Failed && f.value.updatedAt == now
        && f.value.failureCode == Some(code) && f.value.failureReason == Some(reason)
        && (f.value.rollbackRequired <==> t.status == Processing)
        && f.value.pending == t.pending + [TransactionFailed(t.id, t.fromId, t.toId, t.amount, code, reason,
                                                             t.status == Processing)]
    ensures var r := RolledBackOf(t, now);
      if t.status != Failed then r == Err(TransactionRollback)
      else
        && r.Ok? && SameTransfer(r.value, t) && r.value.status == Failed && r.value.updatedAt == now
        && r.value.pending == t.pending + [TransactionRolledBack(t.id, t.fromId, t.amount)]
    ensures t.status.IsTerminal()
        <==> ProcessingOf(t, now).Err? && CompletedOf(t, now).Err? && FailedOf(t, code, reason, now).Err?
  {
  }

  // ----- The aggregate in place -----------------------------------------------

  class Transaction {
    var id: TransactionId
    var fromId: AccountId
    var toId: AccountId
    var amount: Money
    var kind: TransactionType
    var status: TransactionStatus
    var key: IdempotencyKey
    var failureCode: Option<string>
    var failureReason: Option<Error>
    var completedAt: Option<Time>
    var rollbackRequired: bool
    var createdAt: Time
    var updatedAt: Time
    var domainEvents: seq<TransactionEvent>

    ghost function State(): TransactionState
      reads this
    {
      TransactionState(id, fromId, toId, amount, kind, status, key, failureCode, failureReason, completedAt,
                       rollbackRequired, createdAt, updatedAt, domainEvents)
    }

    /** `Transaction.reconstitute`: rebuilt from storage; no event, no validation. */
    constructor Reconstitute(id: TransactionId, fromId: AccountId, toId: AccountId, amount: Money,
                             kind: TransactionType, status: TransactionStatus, key: IdempotencyKey,
                             failureCode: Option<string>, failureReason: Option<Error>, completedAt: Option<Time>,
                             rollbackRequired: bool, createdAt: Time, updatedAt: Time)
      ensures State() == TransactionState(id, fromId, toId, amount, kind, status, key, failureCode, failureReason,
                                          completedAt, rollbackRequired, createdAt, updatedAt, [])
    {
      this.id, this.fromId, this.toId, this.amount, this.kind := id, fromId, toId, amount, kind;
      this.status, this.key := status, key;
      this.failureCode, this.failureReason, this.completedAt := failureCode, failureReason, completedAt;
      this.rollbackRequired, this.createdAt, this.updatedAt := rollbackRequired, createdAt, updatedAt;
      this.domainEvents := [];
    }

    /** `Transaction.initiate`: validates, then records the new transfer. */
    static method Initiate(id: TransactionId, fromId: AccountId, toId: AccountId, amount: Money, key: IdempotencyKey,
                           kind: TransactionType, createdAt: Time, updatedAt: Time)
      returns (r: Result<Transaction, Error>)
      ensures match Initiated(id, fromId, toId, amount, key, kind, createdAt, updatedAt)
              case Ok(t) => r.Ok? && fresh(r.value) && r.value.State() == t
              case Err(e) => r == Err(e)
    {
      if amount.IsZero() {
        return Err(InvalidTransferAmount);
      }
      if fromId == toId {
        return Err(SameAccountTransfer);
      }
      var tx := new Transaction.Reconstitute(id, fromId, toId, amount, kind, Pending, key, None, None, None, false,
                                             createdAt, updatedAt);
      tx.RecordEvent(TransactionInitiated(id, fromId, toId, amount, key));
      return Ok(tx);
    }

    method RecordEvent(event: TransactionEvent)
      modifies this`domainEvents
      ensures domainEvents == old(domainEvents) + [event]
    {
      domainEvents := domainEvents + [event];
    }

    method CollectEvents() returns (events: seq<TransactionEvent>)
      modifies this`domainEvents
      ensures events == old(domainEvents) && domainEvents == []
    {
      events, domainEvents := domainEvents, [];
    }

    method MarkProcessing(now: Time) returns (raised: Option<Error>)
      modifies this
      ensures match ProcessingOf(old(State()), now)
              case Ok(t) => raised == None && State() == t
              case Err(e) => raised == Some(e) && State() == old(State())
    {
      if !status.CanProcess() {
        return Some(TransactionAlreadyProcessing);
      }
      status := Processing;
      updatedAt := now;
      RecordEvent(TransactionProcessing(id, fromId, toId, amount));
      return None;
    }

    method Complete(now: Time) returns (raised: Option<Error>)
      modifies this
      ensures match CompletedOf(old(State()), now)
              case Ok(t) => raised == None && State() == t
              case Err(e) => raised == Some(e) && State() == old(State())
    {
      if !status.CanComplete() {
        return Some(TransactionAlreadyCompleted);
      }
      status := Completed;
      completedAt := Some(now);
      updatedAt := now;
      RecordEvent(TransactionCompleted(id, fromId, toId, amount));
      return None;
    }

    method Fail(code: string, reason: Error, now: Time) returns (raised: Option<Error>)
      modifies this
      ensures match FailedOf(old(State()), code, reason, now)
              case Ok(t) => raised == None && State() == t
              case Err(e) => raised == Some(e) && State() == old(State())
    {
      if !status.CanFail() {
        return Some(TransactionNotFailable);
      }
      rollbackRequired := status == Processing;
      status := Failed;
      failureCode := Some(code);
      failureReason := Some(reason);
      updatedAt := now;
      RecordEvent(TransactionFailed(id, fromId, toId, amount, code, reason, rollbackRequired));
      return None;
    }

    method MarkRolledBack(now: Time) returns (raised: Option<Error>)
      modifies this
      ensures match RolledBackOf(old(State()), now)
              case Ok(t) => raised == None && State() == t
              case Err(e) => raised == Some(e) && State() == old(State())
    {
      if status != Failed {
        return Some(TransactionRollback);
      }
      updatedAt := now;
      RecordEvent(TransactionRolledBack(id, fromId, amount));
      return None;
    }
  }

  // ----- The language of event histories ---------------------------------------

  datatype EventKind = I | P | C | F | R

  function KindOf(e: TransactionEvent): EventKind {
    match e
    case TransactionInitiated(_, _, _, _, _) => I
    case TransactionProcessing(_, _, _, _) => P
    case TransactionCompleted(_, _, _, _) => C
    case TransactionFailed(_, _, _, _, _, _, _) => F
    case TransactionRolledBack(_, _, _) => R
  }

  function Kinds(h: seq<TransactionEvent>): (w: seq<EventKind>)
    ensures |w| == |h| && forall i :: 0 <= i < |h| ==> w[i] == KindOf(h[i])
  {
    seq(|h|, i requires 0 <= i < |h| => KindOf(h[i]))
  }

  /** From position `i` on the word reads `F R*`. */
  predicate FailsFrom(w: seq<EventKind>, i: nat) {
    && i < |w| && w[i] == F
    && forall j :: i < j < |w| ==> w[j] == R
  }

  /** `I (P)? (C | F R*)?`, with `C` only after `P`. */
  predicate LifecycleWord(w: seq<EventKind>) {
    && |w| > 0 && w[0] == I
    && (|| |w| == 1
        || FailsFrom(w, 1)
        || (w[1] == P && (|w| == 2 || FailsFrom(w, 2) || (|w| == 3 && w[2] == C))))
  }

  datatype Operation =
    | ProcessOp
    | CompleteOp
    | FailOp(code: string, reason: Error)
    | RollBackOp
    | CollectOp

  /** A transaction and the events it has already handed out. */
  datatype Recorded = Recorded(tx: TransactionState, delivered: seq<TransactionEvent>) {
    function History(): seq<TransactionEvent> {
      delivered + tx.pending
    }
  }

  function Attempt(t: TransactionState, op: Operation, now: Time): Result<TransactionState, Error>
    requires !op.CollectOp?
  {
    match op
    case ProcessOp => ProcessingOf(t, now)
    case CompleteOp => CompletedOf(t, now)
    case FailOp(code, reason) => FailedOf(t, code, reason, now)
    case RollBackOp => RolledBackOf(t, now)
  }

  /** One operation; a rejected one leaves everything as it was. */
  function Perform(r: Recorded, op: Operation, now: Time): Recorded {
    if op.CollectOp? then Recorded(r.tx.(pending := []), r.History())
    else
      match Attempt(r.tx, op, now)
      case Ok(t) => r.(tx := t)
      case Err(_) => r
  }

  function PerformAll(r: Recorded, ops: seq<(Operation, Time)>): Recorded {
    if ops == [] then r
    else Perform(PerformAll(r, ops[..|ops| - 1]), ops[|ops| - 1].0, ops[|ops| - 1].1)
  }

  function StatusAfter(k: EventKind): TransactionStatus {
    match k
    case I => Pending
    case P => Processing
    case C => Completed
    case F => Failed
    case R => Failed
  }

  /** The position of the failure event of a word that has one. */
  function FailureAt(w: seq<EventKind>): nat {
    if |w| > 1 && w[1] == P then 2 else 1
  }

  /** Status, failure fields and rollback flag are what the history says. */
  ghost predicate Faithful(t: TransactionState, h: seq<TransactionEvent>) {
    var w := Kinds(h);
    && LifecycleWord(w)
    && t.status == StatusAfter(w[|w| - 1])
    && (t.completedAt.Some? <==> t.status == Completed)
    && (t.rollbackRequired <==> t.status == Failed && w[1] == P)
    && (t.failureCode.Some? <==> t.status == Failed)
    && (t.failureReason.Some? <==> t.status == Failed)
    && (t.status == Failed ==>
          && FailureAt(w) < |w| && w[FailureAt(w)] == F
          && h[FailureAt(w)].failureCode == t.failureCode.value
          && h[FailureAt(w)].failureReason == t.failureReason.value
          && h[FailureAt(w)].rollbackRequired == t.rollbackRequired)
  }

  /** What may follow the last event of a history. */
  predicate MayFollow(last: EventKind, next: EventKind) {
    match last
    case I => next == P || next == F
    case P => next == C || next == F
    case C => false
    case F => next == R
    case R => next == R
  }

  /** The language is local: a word can be extended by exactly what may follow its last letter. */
  lemma WordExtends(w: seq<EventKind>, k: EventKind)
    requires LifecycleWord(w)
    ensures LifecycleWord(w + [k]) <==> MayFollow(w[|w| - 1], k)
  {
    var v := w + [k];
    assert v[|w|] == k;
    if FailsFrom(w, 1) {
      assert FailsFrom(v, 1) <==> k == R;
    } else if FailsFrom(w, 2) {
      assert FailsFrom(v, 2) <==> k == R;
    }
  }

  lemma KindsAppend(h: seq<TransactionEvent>, e: TransactionEvent)
    ensures Kinds(h + [e]) == Kinds(h) + [KindOf(e)]
  {
  }

  /** An accepted operation appends the one event that may follow. */
  lemma AttemptKeepsFaithful(r: Recorded, op: Operation, now: Time)
    requires Faithful(r.tx, r.History()) && !op.CollectOp? && Attempt(r.tx, op, now).Ok?
    ensures Faithful(Perform(r, op, now).tx, Perform(r, op, now).History())
    ensures r.History() <= Perform(r, op, now).History()
  {
    var t := Attempt(r.tx, op, now).value;
    var e := t.pending[|t.pending| - 1];
    var h := r.History();
    assert t.pending == r.tx.pending + [e];
    assert r.(tx := t).History() == h + [e];
    AppendIsFaithful(r.tx, h, op, now, t, e);
  }

  lemma AppendIsFaithful(s: TransactionState, h: seq<TransactionEvent>, op: Operation, now: Time,
                         t: TransactionState, e: TransactionEvent)
    requires Faithful(s, h) && !op.CollectOp? && Attempt(s, op, now) == Ok(t) && t.pending == s.pending + [e]
    ensures Faithful(t, h + [e])
  {
    var w, g := Kinds(h), h + [e];
    assert e == t.pending[|s.pending|];
    KindsAppend(h, e);
    var v := Kinds(g);
    WordExtends(w, KindOf(e));
    LastDecides(w);
    assert KindOf(e) != R ==> t.status == StatusAfter(KindOf(e));
    if op.RollBackOp? {
      assert FailureAt(v) == FailureAt(w) && g[FailureAt(w)] == h[FailureAt(w)];
    } else if op.FailOp? {
      assert FailureAt(v) == |h| && g[|h|] == e;
    }
  }

  /** The last letter of a word says how far the word has come. */
  lemma LastDecides(w: seq<EventKind>)
    requires LifecycleWord(w)
    ensures w[|w| - 1] == I <==> w == [I]
    ensures w[|w| - 1] == P <==> w == [I, P]
    ensures StatusAfter(w[|w| - 1]) == Failed <==> FailureAt(w) < |w| && FailsFrom(w, FailureAt(w))
  {
  }

  /**
    The lifecycle: whatever operations are called, in any order, the history is
    a lifecycle word and status, failure fields, completion time and rollback
    flag are what it says.
  */
  lemma {:induction false} HistoryIsLifecycleWord(r: Recorded, ops: seq<(Operation, Time)>)
    requires Faithful(r.tx, r.History())
    ensures Faithful(PerformAll(r, ops).tx, PerformAll(r, ops).History())
    ensures r.History() <= PerformAll(r, ops).History()
  {
    if ops != [] {
      var before := PerformAll(r, ops[..|ops| - 1]);
      var (op, now) := ops[|ops| - 1];
      HistoryIsLifecycleWord(r, ops[..|ops| - 1]);
      if op.CollectOp? {
        assert Perform(before, op, now).History() == before.History();
      } else if Attempt(before.tx, op, now).Ok? {
        AttemptKeepsFaithful(before, op, now);
      }
    }
  }

  lemma InitiatedIsFaithful(id: TransactionId, fromId: AccountId, toId: AccountId, amount: Money, key: IdempotencyKey,
                            kind: TransactionType, createdAt: Time, updatedAt: Time)
    ensures match Initiated(id, fromId, toId, amount, key, kind, createdAt, updatedAt)
            case Ok(t) => Faithful(t, t.pending) && Kinds(t.pending) == [I] && amount.cents > 0 && fromId != toId
            case Err(_) => amount.cents == 0 || fromId == toId
  {
  }

  function OperationFor(k: EventKind): Operation {
    match k
    case P => ProcessOp
    case C => CompleteOp
    case F => FailOp("", InsufficientFunds)
    case R => RollBackOp
    case I => CollectOp
  }

  function OperationsFor(w: seq<EventKind>): seq<(Operation, Time)> {
    seq(|w|, i requires 0 <= i < |w| => (OperationFor(w[i]), 0))
  }

  /** The calls for `w`, made on a fresh transaction, leave the history `w` and a faithful transaction. */
  ghost predicate Reached(t: TransactionState, w: seq<EventKind>)
    requires |w| > 0
  {
    var r := PerformAll(Recorded(t, []), OperationsFor(w[1..]));
    Kinds(r.History()) == w && Faithful(r.tx, r.History())
  }

  /** The converse: every lifecycle word is the history of some calls. */
  lemma {:induction false} EveryWordIsReached(t: TransactionState, w: seq<EventKind>)
    requires Faithful(t, t.pending) && t.status == Pending && LifecycleWord(w)
    ensures Reached(t, w)
  {
    if |w| == 1 {
      FirstIsReached(t, w);
    } else {
      PrefixIsWord(w);
      EveryWordIsReached(t, w[..|w| - 1]);
      assert w == w[..|w| - 1] + [w[|w| - 1]];
      NextIsReached(t, w[..|w| - 1], w[|w| - 1]);
    }
  }

  lemma FirstIsReached(t: TransactionState, w: seq<EventKind>)
    requires Faithful(t, t.pending) && t.status == Pending && w == [I]
    ensures Reached(t, w)
  {
    hide Faithful;
    PendingHasOnlyBegun(t, t.pending);
    assert OperationsFor(w[1..]) == [];
    assert Recorded(t, []).History() == t.pending;
  }

  lemma PendingHasOnlyBegun(t: TransactionState, h: seq<TransactionEvent>)
    requires Faithful(t, h) && t.status == Pending
    ensures Kinds(h) == [I]
  {
    LastDecides(Kinds(h));
    var w := Kinds(h);
    assert w[|w| - 1] == I;
  }

  lemma NextIsReached(t: TransactionState, v: seq<EventKind>, k: EventKind)
    requires LifecycleWord(v) && LifecycleWord(v + [k]) && Reached(t, v)
    ensures Reached(t, v + [k])
  {
    WordExtends(v, k);
    var done, ops := OperationsFor(v[1..]), OperationsFor((v + [k])[1..]);
    assert (v + [k])[1..] == v[1..] + [k];
    assert ops == done + [(OperationFor(k), 0)];
    LastOperation(Recorded(t, []), ops, done, k);
    StepReaches(PerformAll(Recorded(t, []), done), v, k);
  }

  lemma LastOperation(r: Recorded, ops: seq<(Operation, Time)>, done: seq<(Operation, Time)>, k: EventKind)
    requires ops == done + [(OperationFor(k), 0)]
    ensures PerformAll(r, ops) == Perform(PerformAll(r, done), OperationFor(k), 0)
  {
    assert ops[..|ops| - 1] == done;
  }

  lemma PrefixIsWord(w: seq<EventKind>)
    requires LifecycleWord(w) && |w| > 1
    ensures LifecycleWord(w[..|w| - 1])
  {
    var v := w[..|w| - 1];
    assert FailsFrom(w, 1) && |v| > 1 ==> FailsFrom(v, 1);
    assert FailsFrom(w, 2) && |v| > 2 ==> FailsFrom(v, 2);
  }

  lemma StepReaches(before: Recorded, v: seq<EventKind>, k: EventKind)
    requires Faithful(before.tx, before.History()) && Kinds(before.History()) == v && MayFollow(v[|v| - 1], k)
    ensures Kinds(Perform(before, OperationFor(k), 0).History()) == v + [k]
    ensures Faithful(Perform(before, OperationFor(k), 0).tx, Perform(before, OperationFor(k), 0).History())
  {
    FollowerIsAccepted(before.tx, before.History(), k);
    hide Faithful, MayFollow;
    var t := Attempt(before.tx, OperationFor(k), 0).value;
    var e := t.pending[|t.pending| - 1];
    assert before.(tx := t).History() == before.History() + [e];
    KindsAppend(before.History(), e);
    AttemptKeepsFaithful(before, OperationFor(k), 0);
  }

  /** The call for an event that may come next is accepted and records that event. */
  lemma FollowerIsAccepted(t: TransactionState, h: seq<TransactionEvent>, k: EventKind)
    requires Faithful(t, h) && MayFollow(Kinds(h)[|h| - 1], k)
    ensures k != I && Attempt(t, OperationFor(k), 0).Ok?
    ensures var u := Attempt(t, OperationFor(k), 0).value;
      && |u.pending| > 0 && u.pending == t.pending + [u.pending[|u.pending| - 1]]
      && KindOf(u.pending[|u.pending| - 1]) == k
  {
    assert t.status == StatusAfter(Kinds(h)[|h| - 1]);
  }

  /** A terminal transaction keeps its status, failure fields and completion time under every call. */
  lemma {:induction false} TerminalIsForever(r: Recorded, ops: seq<(Operation, Time)>)
    requires r.tx.status.IsTerminal()
    ensures var t := PerformAll(r, ops).tx;
      t == r.tx.(updatedAt := t.updatedAt, pending := t.pending)
  {
    if ops != [] {
      TerminalIsForever(r, ops[..|ops| - 1]);
    }
  }

  /**
    The documentation says a rollback is only valid after PROCESSING. The code
    looks at FAILED alone: for a transaction that has all its history in memory,
    acceptance agrees with `needs_rollback` exactly when it did not fail straight
    from PENDING. (For one loaded from its row: `Mappers.RollbackOfStoredIsExactIff`.)
  */
  lemma RollbackCheckIsExactIff(r: Recorded, now: Time)
    requires Faithful(r.tx, r.History())
    ensures (RolledBackOf(r.tx, now).Ok? <==> r.tx.NeedsRollback())
        <==> !(r.tx.status == Failed && Kinds(r.History())[1] == F)
  {
    var w := Kinds(r.History());
    assert |w| == 1 ==> w == [I];
  }

  /** A rollback that the documentation excludes and the code accepts. */
  lemma RollbackWithoutProcessing(t: TransactionState)
    requires t.status == Pending && !t.rollbackRequired
    ensures var failed := FailedOf(t, "X", CurrencyMismatch, 1);
      failed.Ok? && !failed.value.NeedsRollback() && RolledBackOf(failed.value, 2).Ok?
  {
  }
}
