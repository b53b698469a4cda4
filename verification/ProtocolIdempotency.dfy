/** One idempotency key, one effect: in every interleaving, for ever. */
module ProtocolIdempotency {
  import opened Prelude
  import opened Domain
  import opened Transactions
  import opened Mappers
  import opened TransferSpec
  import opened Books
  import opened Replay
  import opened TransferAnswers
  import opened Protocol
  import opened ProtocolSafety

  /** Stored transactions stay as they are. */
  ghost predicate RowsStay(db: Db, db': Db) {
    forall t :: t in db.transactions ==> t in db'.transactions && db'.transactions[t] == db.transactions[t]
  }

  lemma StepKeepsRows(s: System, step: Step)
    requires Inv(s) && Enabled(s, step)
    ensures RowsStay(s.db, Next(s, step).db)
  {
    hide Next, CommitError, Serial, LocalOk, LocksOk, OwnersOk;
    match step {
      case Commit(r) =>
        CommitWrites(s, r);
        CommitIsPrepared(s, step);
        assert PreparedId(s.requests[r]).Some?;
      case Outside(op) =>
        NextOutside(s, op);
        OutsideKeepsTransactions(s.db, op);
      case _ => OtherStepsKeepDb(s, step);
    }
  }

  /** A transaction row, once committed, is there unchanged in every later state. */
  lemma {:induction false} CommittedRowsAreForever(s: System, steps: seq<Step>)
    requires Inv(s) && ValidFrom(s, steps)
    ensures RowsStay(s.db, RunFrom(s, steps).db)
    decreases |steps|
  {
    hide Inv, Next, Enabled;
    if steps != [] {
      StepKeepsRows(s, steps[0]);
      StepKeepsInv(s, steps[0]);
      CommittedRowsAreForever(Next(s, steps[0]), steps[1..]);
    }
  }

  /** Once a key is used, no step of any request with that key changes the tables. */
  lemma UsedKeyChangesNothing(s: System, step: Step)
    requires Inv(s) && Enabled(s, step)
    requires Actor(step).Some? && !step.Arrive? && KeyUsed(s.db, s.requests[step.r].cmd.key)
    ensures Next(s, step).db == s.db && Next(s, step).ops == s.ops
  {
    hide Next, Enabled, CommitError, Serial, LocksOk, OwnersOk, LocalOk;
    if step.Commit? {
      CommitIsPrepared(s, step);
      assert LocalOk(s, step.r);
      PreparedKey(s, step.r);
      if CommitError(s.db, s.requests[step.r].phase.work).None? {
        NoErrorNoKey(s.db, s.requests[step.r].phase.work);
      }
      CommitWrites(s, step.r);
      OpsAfter(s, step);
    } else {
      OtherStepsKeepDb(s, step);
    }
  }

  lemma PreparedKey(s: System, r: RequestId)
    requires r in s.requests && s.requests[r].phase.Prepared? && LocalOk(s, r)
    ensures s.requests[r].phase.work.tx.key == s.requests[r].cmd.key
    ensures s.requests[r].cmd.fromId != s.requests[r].cmd.toId
  {
    hide Prepare, AccountToDomain, CommandMoney;
    var cmd, work, at := s.requests[r].cmd, s.requests[r].phase.work, s.requests[r].phase.at;
    PrepareKeeps(cmd, CommandMoney(cmd).value, AccountToDomain(s.db.accounts[cmd.fromId]).value,
                 AccountToDomain(s.db.accounts[cmd.toId]).value, work.tx.id, at);
  }

  /** A transfer from an account to itself never changes the tables, leases or no leases. */
  lemma SelfTransferChangesNothing(s: System, step: Step)
    requires Inv(s) && Enabled(s, step) && Actor(step).Some? && !step.Arrive?
    requires s.requests[step.r].cmd.fromId == s.requests[step.r].cmd.toId
    ensures Next(s, step).db == s.db && Next(s, step).ops == s.ops
  {
    hide Next, Enabled, CommitError, Serial, LocksOk, OwnersOk, LocalOk;
    if step.Commit? {
      CommitIsPrepared(s, step);
      assert LocalOk(s, step.r);
      PreparedKey(s, step.r);
    } else {
      OtherStepsKeepDb(s, step);
    }
  }

  // ----- What a losing concurrent request gets --------------------------------------------

  /**
    The key of the request is used, but the request is past its lookup and has not
    committed anything itself; if it has an answer, that is an exception.
  */
  ghost predicate Loser(s: System, r: RequestId) {
    && r in s.requests && KeyUsed(s.db, s.requests[r].cmd.key)
    && !s.requests[r].phase.Looking? && EntryOf(s.requests[r]).None?
    && (s.requests[r].phase.Releasing? || s.requests[r].phase.Finished? ==> s.requests[r].phase.response.Raised?)
  }

  lemma LoserStep(s: System, step: Step)
    requires Enabled(s, step) && Actor(step).Some? && !step.Arrive?
    requires step.r in s.requests && !s.requests[step.r].phase.Looking? && EntryOf(s.requests[step.r]).None?
    requires step.Commit? ==> CommitError(s.db, s.requests[step.r].phase.work).Some?
    requires s.requests[step.r].phase.Releasing? ==> s.requests[step.r].phase.response.Raised?
    ensures step.r in Next(s, step).requests
    ensures var p := Next(s, step).requests[step.r].phase;
      !p.Looking? && (p.Releasing? || p.Finished? ==> p.response.Raised?)
  {
    hide AccountToDomain, Prepare, CommandMoney, KeyUsed, Stored, CommitError, Committed;
  }

  lemma StepKeepsLoser(s: System, step: Step, r: RequestId)
    requires Inv(s) && Enabled(s, step) && Loser(s, r)
    ensures Loser(Next(s, step), r)
  {
    hide Next, Enabled, CommitError, Serial, LocksOk, OwnersOk, LocalOk, IdsOk;
    StepKeepsRows(s, step);
    KeyStaysUsed(s.db, Next(s, step).db, s.requests[r].cmd.key);
    RequestsAfter(s, step);
    if Actor(step) == Some(r) {
      assert !step.Arrive? by { ArriveIsNew(s, step); }
      if step.Commit? {
        CommitIsPrepared(s, step);
        assert LocalOk(s, r);
        PreparedKey(s, r);
        if CommitError(s.db, s.requests[r].phase.work).None? {
          NoErrorNoKey(s.db, s.requests[r].phase.work);
        }
      }
      LoserStep(s, step);
      EntryAfter(s, step, r);
    }
  }

  lemma KeyStaysUsed(db: Db, db': Db, key: IdempotencyKey)
    requires RowsStay(db, db') && KeyUsed(db, key)
    ensures KeyUsed(db', key)
  {
    var t :| t in db.transactions && db.transactions[t].key == key;
    assert db'.transactions[t].key == key;
  }

  /**
    A request that is past its lookup when its key becomes used never gets the stored
    transaction: there is no second lookup. It commits nothing, and however the steps
    interleave, the answer it ends with is an exception.
  */
  lemma {:induction false} LosersAlwaysFail(s: System, steps: seq<Step>, r: RequestId)
    requires Inv(s) && ValidFrom(s, steps) && Loser(s, r)
    ensures Loser(RunFrom(s, steps), r)
    decreases |steps|
  {
    hide Inv, Loser, Next, Enabled;
    if steps != [] {
      StepKeepsLoser(s, steps[0], r);
      StepKeepsInv(s, steps[0]);
      LosersAlwaysFail(Next(s, steps[0]), steps[1..], r);
    }
  }

  // ----- What a repeated request gets ----------------------------------------------------

  /** With unique keys the row of a key is the one that has it. */
  lemma RowOfKeyIs(db: Db, t: TransactionId)
    requires KeysUnique(db.transactions) && t in db.transactions
    ensures KeyUsed(db, db.transactions[t].key) && RowOfKey(db, db.transactions[t].key) == db.transactions[t]
  {
  }

  /**
    A request that comes after transaction `t` committed under its key: it has not
    looked yet, or it has been given the stored transaction, or its lookup failed.
  */
  ghost predicate LateComer(s: System, r: RequestId, t: TransactionId) {
    && t in s.db.transactions
    && (r in s.requests && s.requests[r].cmd.key == s.db.transactions[t].key ==>
          || s.requests[r].phase.Looking?
          || s.requests[r].phase == Finished(Stored(s.db.transactions[t]), None)
          || s.requests[r].phase == Finished(Raised(Infrastructure), None))
  }

  lemma StepKeepsLateComer(s: System, step: Step, r: RequestId, t: TransactionId)
    requires Inv(s) && Enabled(s, step) && LateComer(s, r, t)
    ensures LateComer(Next(s, step), r, t)
  {
    hide Inv, Stored, CommitError, Committed, Applied, Prepare, CommandMoney, AccountToDomain;
    StepKeepsRows(s, step);
    if Actor(step) == Some(r) {
      if step.Lookup? {
        InvFiled(s);
        RowOfKeyIs(s.db, t);
      }
    } else if r in Next(s, step).requests {
      NewRequests(s, step, r);
      RequestsOfOthersStay(s, step, r);
    }
  }

  /**
    Every request that arrives after a transaction committed under its key - whether
    that transaction COMPLETED or FAILED - is answered with that transaction, or its
    own lookup breaks down; there is no third way, however the steps interleave.
  */
  lemma {:induction false} LaterRequestsGetTheStoredRow(s: System, steps: seq<Step>, r: RequestId, t: TransactionId)
    requires Inv(s) && ValidFrom(s, steps) && LateComer(s, r, t)
    ensures LateComer(RunFrom(s, steps), r, t)
    ensures RunFrom(s, steps).db.transactions[t] == s.db.transactions[t]
    decreases |steps|
  {
    hide Inv, Next, Enabled;
    if steps != [] {
      StepKeepsLateComer(s, steps[0], r, t);
      StepKeepsRows(s, steps[0]);
      StepKeepsInv(s, steps[0]);
      LaterRequestsGetTheStoredRow(Next(s, steps[0]), steps[1..], r, t);
    }
  }

  /** So if it returns at all, every value it returns is that of the row. */
  lemma LaterAnswersRepeatTheRow(s: System, steps: seq<Step>, r: RequestId, t: TransactionId)
    requires Inv(s) && ValidFrom(s, steps) && LateComer(s, r, t)
    requires r in RunFrom(s, steps).requests && RunFrom(s, steps).requests[r].phase.Finished?
    requires RunFrom(s, steps).requests[r].cmd.key == s.db.transactions[t].key
    ensures var response := RunFrom(s, steps).requests[r].phase.response;
      response == Raised(Infrastructure) || (response.Returned? && Repeats(response.dto, s.db.transactions[t]))
  {
    hide RunFrom, ValidFrom, Inv, Stored, Repeats;
    LaterRequestsGetTheStoredRow(s, steps, r, t);
    InvFiled(s);
    RowsAreWhole(s.db, OpeningsOf(s.ops), t);
    StoredMeans(s.db.transactions[t]);
  }

  lemma RowsAreWhole(db: Db, openings: Openings, t: TransactionId)
    requires Tidy(db, openings) && t in db.transactions
    ensures WholeCents(db.transactions[t].amount)
  {
    assert TidyTransaction(t, db.transactions[t], db.accounts);
  }

  /** The stored row repeats the answer: the same DTO, or the failure with the exception that was raised. */
  ghost predicate RowAnswers(row: TransactionRow, response: Response) {
    match response
    case Returned(dto) => Stored(row) == Returned(dto) && dto.status == Completed
    case Raised(e) =>
      Stored(row).Returned? && Stored(row).dto.status == Failed && Stored(row).dto.failureReason == Some(e)
  }

  /** Every request that committed has a row under its key that repeats its answer. */
  ghost predicate Remembered(s: System) {
    forall r :: r in s.requests && EntryOf(s.requests[r]).Some? ==> RememberedAt(s, r, EntryOf(s.requests[r]).value)
  }

  ghost predicate RememberedAt(s: System, r: RequestId, i: nat)
    requires r in s.requests && EntryOf(s.requests[r]) == Some(i)
  {
    && i < |s.ops| && s.ops[i].TransferOp? && s.ops[i].txId in s.db.transactions
    && s.db.transactions[s.ops[i].txId].key == s.requests[r].cmd.key
    && RowAnswers(s.db.transactions[s.ops[i].txId], s.requests[r].phase.response)
  }

  lemma CommitRemembers(s: System, r: RequestId)
    requires Enabled(s, Commit(r)) && LocalOk(s, r) && CommitError(s.db, s.requests[r].phase.work).None?
    ensures var s' := Next(s, Commit(r));
      r in s'.requests && EntryOf(s'.requests[r]) == Some(|s.ops|) && RememberedAt(s', r, |s.ops|)
  {
    hide MoveMoney, AccountToDomain, CommandMoney, CommitError, ColumnMoney;
    var cmd, work, at := s.requests[r].cmd, s.requests[r].phase.work, s.requests[r].phase.at;
    var sender := AccountToDomain(s.db.accounts[cmd.fromId]).value;
    var receiver := AccountToDomain(s.db.accounts[cmd.toId]).value;
    var tx := Initiated(work.tx.id, cmd.fromId, cmd.toId, CommandMoney(cmd).value, cmd.key, Transfer,
                        at.created, at.touched).value;
    MoveMoneyMeans(tx, sender, receiver, at);
    TransactionRoundTrip(work.tx);
  }

  lemma StepKeepsRemembered(s: System, step: Step)
    requires Inv(s) && Remembered(s) && Enabled(s, step)
    ensures Remembered(Next(s, step))
  {
    hide Next, Enabled, CommitError, RowAnswers, Serial, LocksOk, OwnersOk, IdsOk, LocalOk;
    var s' := Next(s, step);
    StepKeepsRows(s, step);
    OpsAfter(s, step);
    CommitIsPrepared(s, step);
    forall r | r in s'.requests && EntryOf(s'.requests[r]).Some?
      ensures RememberedAt(s', r, EntryOf(s'.requests[r]).value)
    {
      EntryAfter(s, step, r);
      if step.Commit? && step.r == r && CommitError(s.db, s.requests[r].phase.work).None? {
        CommitRemembers(s, r);
      } else {
        AnswerStays(s, step, r);
        assert RememberedAt(s, r, EntryOf(s.requests[r]).value);
      }
    }
  }

  /** The answer of a request that has committed does not change on its way out. */
  lemma AnswerStays(s: System, step: Step, r: RequestId)
    requires Enabled(s, step) && r in s.requests && EntryOf(s.requests[r]).Some?
    ensures r in Next(s, step).requests && EntryOf(Next(s, step).requests[r]) == EntryOf(s.requests[r])
    ensures Next(s, step).requests[r].cmd == s.requests[r].cmd
    ensures Next(s, step).requests[r].phase.response == s.requests[r].phase.response
  {
    hide AccountToDomain, Prepare, CommandMoney, KeyUsed, Stored, CommitError, Committed, Applied;
  }

  /** Requests that committed drew different transaction ids. */
  ghost predicate IdsDiffer(s: System) {
    forall r, u :: r in s.requests && u in s.requests && r != u && CommittedId(s, r).Some? ==>
      CommittedId(s, r) != CommittedId(s, u)
  }

  function CommittedId(s: System, r: RequestId): Option<TransactionId>
    requires r in s.requests
  {
    var e := EntryOf(s.requests[r]);
    if e.Some? && e.value < |s.ops| && s.ops[e.value].TransferOp? then Some(s.ops[e.value].txId) else None
  }

  lemma CommittedIdAfter(s: System, step: Step, r: RequestId)
    requires Remembered(s) && Enabled(s, step) && r in Next(s, step).requests
    ensures step.Commit? ==> step.r in s.requests && s.requests[step.r].phase.Prepared?
    ensures CommittedId(Next(s, step), r)
         == if step.Commit? && step.r == r && CommitError(s.db, s.requests[r].phase.work).None?
            then Some(s.requests[r].phase.work.tx.id)
            else if r in s.requests then CommittedId(s, r) else None
  {
    hide Next, CommitError, RowAnswers;
    CommitIsPrepared(s, step);
    EntryAfter(s, step, r);
    OpsAfter(s, step);
    if r in s.requests && EntryOf(s.requests[r]).Some? {
      assert RememberedAt(s, r, EntryOf(s.requests[r]).value);
    }
  }

  lemma StepKeepsIdsDiffer(s: System, step: Step)
    requires Inv(s) && Remembered(s) && IdsDiffer(s) && Enabled(s, step)
    ensures IdsDiffer(Next(s, step))
  {
    hide Next, Enabled, CommitError, RowAnswers, Serial, LocksOk, OwnersOk, LocalOk;
    var s' := Next(s, step);
    forall r, u | r in s'.requests && u in s'.requests && r != u && CommittedId(s', r).Some?
      ensures CommittedId(s', r) != CommittedId(s', u)
    {
      CommittedIdAfter(s, step, r);
      CommittedIdAfter(s, step, u);
      assert step.Commit? ==> PreparedId(s.requests[step.r]) == Some(s.requests[step.r].phase.work.tx.id);
      if r in s.requests && CommittedId(s, r).Some? {
        assert RememberedAt(s, r, EntryOf(s.requests[r]).value);
      }
      if u in s.requests && CommittedId(s, u).Some? {
        assert RememberedAt(s, u, EntryOf(s.requests[u]).value);
      }
    }
  }

  lemma {:induction false} RunKeepsRemembered(s: System, steps: seq<Step>)
    requires Inv(s) && Remembered(s) && IdsDiffer(s) && ValidFrom(s, steps)
    ensures Inv(RunFrom(s, steps)) && Remembered(RunFrom(s, steps)) && IdsDiffer(RunFrom(s, steps))
    decreases |steps|
  {
    hide Inv, Remembered, IdsDiffer, Next, Enabled;
    if steps != [] {
      StepKeepsIdsDiffer(s, steps[0]);
      StepKeepsRemembered(s, steps[0]);
      StepKeepsInv(s, steps[0]);
      RunKeepsRemembered(Next(s, steps[0]), steps[1..]);
    }
  }

  /**
    Exactly one effect per key: in every reachable state at most one of the requests
    with one key has committed anything, and the row under the key repeats its answer.
  */
  lemma AtMostOneCommitPerKey(steps: seq<Step>, r: RequestId, u: RequestId)
    requires ValidFrom(INITIAL, steps)
    requires var s := RunFrom(INITIAL, steps);
             r in s.requests && u in s.requests && r != u && s.requests[r].cmd.key == s.requests[u].cmd.key
             && EntryOf(s.requests[r]).Some?
    ensures var s := RunFrom(INITIAL, steps);
      EntryOf(s.requests[u]).None? && RememberedAt(s, r, EntryOf(s.requests[r]).value)
  {
    hide RunFrom, ValidFrom, Inv, RowAnswers;
    InitialInv();
    RunKeepsRemembered(INITIAL, steps);
    var s := RunFrom(INITIAL, steps);
    assert RememberedAt(s, r, EntryOf(s.requests[r]).value);
    InvFiled(s);
    if EntryOf(s.requests[u]).Some? {
      SameKeySameId(s, r, u);
    }
  }

  lemma SameKeySameId(s: System, r: RequestId, u: RequestId)
    requires Remembered(s) && KeysUnique(s.db.transactions) && r in s.requests && u in s.requests
    requires EntryOf(s.requests[r]).Some? && EntryOf(s.requests[u]).Some?
    requires s.requests[r].cmd.key == s.requests[u].cmd.key
    ensures CommittedId(s, r).Some? && CommittedId(s, r) == CommittedId(s, u)
  {
    assert RememberedAt(s, r, EntryOf(s.requests[r]).value) && RememberedAt(s, u, EntryOf(s.requests[u]).value);
  }
}
