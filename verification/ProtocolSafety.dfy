/**
  What every interleaving keeps. Row locks alone carry it: nothing here depends on
  the Redis keys, which may vanish or linger at any time.
*/
module ProtocolSafety {
  import opened Prelude
  import opened Domain
  import opened Accounts
  import opened Transactions
  import opened Mappers
  import opened TransferSpec
  import opened Books
  import opened Replay
  import opened Protocol

  // ----- The invariant ----------------------------------------------------------------

  /** The rows a request has locked. */
  function LockedRows(req: Request): set<AccountId> {
    match req.phase
    case SenderLoaded(_, _) => {req.cmd.fromId}
    case BothLoaded(_, _, _) => {req.cmd.fromId, req.cmd.toId}
    case Prepared(_, _) => {req.cmd.fromId, req.cmd.toId}
    case _ => {}
  }

  /** `r` has the row of `a` locked and `copy` is what that row still says. */
  ghost predicate HoldsCopy(s: System, r: RequestId, a: AccountId, copy: AccountState) {
    && a in s.rowLocks && s.rowLocks[a] == r
    && a in s.db.accounts && AccountToDomain(s.db.accounts[a]) == Ok(copy)
  }

  /** The copy that loading `a` now would give. */
  ghost predicate HoldsRow(s: System, r: RequestId, a: AccountId) {
    a in s.db.accounts && AccountToDomain(s.db.accounts[a]).Ok?
    && HoldsCopy(s, r, a, AccountToDomain(s.db.accounts[a]).value)
  }

  /** The work is what the domain calls make of the rows as they are now. */
  ghost predicate PreparedFromRows(s: System, r: RequestId, cmd: Command, work: Work, at: Stamps) {
    && HoldsRow(s, r, cmd.fromId) && HoldsRow(s, r, cmd.toId) && CommandMoney(cmd).Ok?
    && Prepare(cmd, CommandMoney(cmd).value, AccountToDomain(s.db.accounts[cmd.fromId]).value,
               AccountToDomain(s.db.accounts[cmd.toId]).value, work.tx.id, at) == Ok(work)
  }

  /** Entry `i` of the committed operations is this command, and ran alone at that point it answers the same. */
  ghost predicate EntryAnswers(ops: seq<Op>, cmd: Command, response: Response, i: nat) {
    && i < |ops| && ops[i].TransferOp? && ops[i].cmd == cmd
    && Sequential(ReplayAll(ops[..i]), cmd, ops[i].txId, ops[i].at).response == response
  }

  ghost predicate EntryPublishes(ops: seq<Op>, i: nat, events: seq<TransactionEvent>)
    requires i < |ops| && ops[i].TransferOp?
  {
    Sequential(ReplayAll(ops[..i]), ops[i].cmd, ops[i].txId, ops[i].at).published == events
  }

  ghost predicate LocalOk(s: System, r: RequestId)
    requires r in s.requests
  {
    var cmd := s.requests[r].cmd;
    match s.requests[r].phase
    case Looking => true
    case Acquiring(amount, got) => got <= 1 && CommandMoney(cmd) == Ok(amount)
    case Entered(amount) => CommandMoney(cmd) == Ok(amount)
    case SenderLoaded(amount, sender) => CommandMoney(cmd) == Ok(amount) && HoldsCopy(s, r, cmd.fromId, sender)
    case BothLoaded(amount, sender, receiver) =>
      CommandMoney(cmd) == Ok(amount) && HoldsCopy(s, r, cmd.fromId, sender) && HoldsCopy(s, r, cmd.toId, receiver)
    case Prepared(work, at) => PreparedFromRows(s, r, cmd, work, at)
    case Releasing(left, response, events, entry) =>
      && left <= 2
      && (entry.None? ==> events == [])
      && (entry.Some? ==> EntryAnswers(s.ops, cmd, response, entry.value) && EntryPublishes(s.ops, entry.value, events))
    case Finished(response, entry) => entry.Some? ==> EntryAnswers(s.ops, cmd, response, entry.value)
  }

  /** Only a request whose phase says so has a row locked. */
  ghost predicate LocksOk(s: System) {
    forall a :: a in s.rowLocks ==> s.rowLocks[a] in s.requests && a in LockedRows(s.requests[s.rowLocks[a]])
  }

  function PreparedId(req: Request): Option<TransactionId> {
    if req.phase.Prepared? then Some(req.phase.work.tx.id) else None
  }

  /** Ids of prepared transactions are drawn, not stored yet, and all different. */
  ghost predicate IdsOk(s: System) {
    && s.db.transactions.Keys <= s.drawn
    && (forall r :: r in s.requests && PreparedId(s.requests[r]).Some? ==>
          PreparedId(s.requests[r]).value in s.drawn && PreparedId(s.requests[r]).value !in s.db.transactions)
    && (forall r, u :: r in s.requests && u in s.requests && r != u && PreparedId(s.requests[r]).Some? ==>
          PreparedId(s.requests[r]) != PreparedId(s.requests[u]))
  }

  /** The committed tables are those of the committed operations run one at a time. */
  ghost predicate Serial(s: System) {
    s.db == ReplayAll(s.ops) && FreshIds(s.ops)
  }

  function EntryOf(req: Request): Option<nat> {
    match req.phase
    case Releasing(_, _, _, entry) => entry
    case Finished(_, entry) => entry
    case _ => None
  }

  /** Every committed transfer belongs to exactly one request. */
  ghost predicate OwnersOk(s: System) {
    && (forall r, u :: r in s.requests && u in s.requests && r != u && EntryOf(s.requests[r]).Some? ==>
          EntryOf(s.requests[r]) != EntryOf(s.requests[u]))
    && (forall i :: 0 <= i < |s.ops| && s.ops[i].TransferOp? ==>
          exists r :: r in s.requests && EntryOf(s.requests[r]) == Some(i))
  }

  ghost predicate Inv(s: System) {
    && (forall r :: r in s.requests ==> LocalOk(s, r))
    && LocksOk(s) && IdsOk(s) && Serial(s) && OwnersOk(s)
  }

  // ----- What a commit is --------------------------------------------------------------

  /** Prepared work carries the command and the ids of the rows it came from. */
  lemma PrepareKeeps(cmd: Command, amount: Money, sender: AccountState, receiver: AccountState, txId: TransactionId,
                     at: Stamps)
    requires Prepare(cmd, amount, sender, receiver, txId, at).Ok?
    ensures var work := Prepare(cmd, amount, sender, receiver, txId, at).value;
      && work.tx.id == txId && work.tx.key == cmd.key && cmd.fromId != cmd.toId
      && work.tx.fromId == cmd.fromId && work.tx.toId == cmd.toId
      && work.sender.id == sender.id && work.receiver.id == receiver.id
  {
    hide MoveMoney;
    var tx := Initiated(txId, cmd.fromId, cmd.toId, amount, cmd.key, Transfer, at.created, at.touched).value;
    MoveMoneyMeans(tx, sender, receiver, at);
  }

  /**
    The heart of serialisability: committing work prepared earlier has the effect,
    the answer and the events of running the whole request alone now.
  */
  lemma CommitIsSequential(s: System, r: RequestId, openings: Openings)
    requires r in s.requests && s.requests[r].phase.Prepared? && LocalOk(s, r) && Tidy(s.db, openings)
    requires CommitError(s.db, s.requests[r].phase.work).None?
    ensures var cmd, work, at := s.requests[r].cmd, s.requests[r].phase.work, s.requests[r].phase.at;
      && work.sender.id == cmd.fromId && work.receiver.id == cmd.toId
      && cmd.fromId in s.db.accounts && cmd.toId in s.db.accounts
      && Committed(s.db, work) == Sequential(s.db, cmd, work.tx.id, at)
  {
    hide Prepare, CommitError, Committed;
    var cmd, work, at := s.requests[r].cmd, s.requests[r].phase.work, s.requests[r].phase.at;
    var sender := AccountToDomain(s.db.accounts[cmd.fromId]).value;
    var receiver := AccountToDomain(s.db.accounts[cmd.toId]).value;
    PrepareKeeps(cmd, CommandMoney(cmd).value, sender, receiver, work.tx.id, at);
    LoadKeepsId(s.db.accounts[cmd.fromId]);
    LoadKeepsId(s.db.accounts[cmd.toId]);
    NoErrorNoKey(s.db, work);
  }

  lemma NoErrorNoKey(db: Db, work: Work)
    requires CommitError(db, work).None?
    ensures !KeyUsed(db, work.tx.key)
  {
  }

  // ----- What a step leaves alone -------------------------------------------------------

  /** Whose step it is. */
  function Actor(step: Step): Option<RequestId> {
    match step
    case Expire(_) => None
    case Linger(_) => None
    case Outside(_) => None
    case _ => Some(step.r)
  }

  /** From the point of view of request `r`: its locks and the rows under them stay, committed operations stay. */
  ghost predicate Harmless(s: System, s': System, r: RequestId) {
    && (forall a :: a in s.rowLocks && s.rowLocks[a] == r ==>
          && a in s'.rowLocks && s'.rowLocks[a] == r
          && (a in s.db.accounts ==> a in s'.db.accounts && s'.db.accounts[a] == s.db.accounts[a]))
    && s.ops <= s'.ops
  }

  lemma EntryStays(ops: seq<Op>, ops': seq<Op>, cmd: Command, response: Response, i: nat)
    requires ops <= ops' && EntryAnswers(ops, cmd, response, i)
    ensures EntryAnswers(ops', cmd, response, i)
    ensures forall events :: EntryPublishes(ops, i, events) ==> EntryPublishes(ops', i, events)
  {
    assert ops'[..i] == ops[..i];
  }

  lemma HarmlessKeepsLocal(s: System, s': System, r: RequestId)
    requires r in s.requests && r in s'.requests && s'.requests[r] == s.requests[r]
    requires LocalOk(s, r) && Harmless(s, s', r)
    ensures LocalOk(s', r)
  {
    hide AccountToDomain, Prepare, CommandMoney, Sequential;
    var e := EntryOf(s.requests[r]);
    if e.Some? {
      EntryStays(s.ops, s'.ops, s.requests[r].cmd, s.requests[r].phase.response, e.value);
    }
  }

  /** Writing two rows leaves the others. */
  lemma WrittenElsewhere(db: Db, work: Work, a: AccountId)
    requires work.sender.id in db.accounts && work.receiver.id in db.accounts
    requires a in db.accounts && a != work.sender.id && a != work.receiver.id
    ensures a in Written(db, work).accounts && Written(db, work).accounts[a] == db.accounts[a]
  {
  }

  lemma OutsideElsewhere(db: Db, op: Op, a: AccountId)
    requires !op.TransferOp? && (op.StatusOp? ==> op.id != a) && a in db.accounts
    ensures a in Applied(db, op).accounts && Applied(db, op).accounts[a] == db.accounts[a]
  {
  }

  ghost predicate RowsFiled(db: Db) {
    forall a :: a in db.accounts ==> db.accounts[a].id == a
  }

  /** The accounts a prepared request writes are the ones it has locked. */
  lemma OwnRows(s: System, r: RequestId)
    requires r in s.requests && s.requests[r].phase.Prepared? && LocalOk(s, r)
    requires RowsFiled(s.db)
    ensures var cmd, work := s.requests[r].cmd, s.requests[r].phase.work;
      && work.sender.id == cmd.fromId && work.receiver.id == cmd.toId
      && cmd.fromId in s.rowLocks && s.rowLocks[cmd.fromId] == r
      && cmd.toId in s.rowLocks && s.rowLocks[cmd.toId] == r
  {
    hide Prepare;
    var cmd, work, at := s.requests[r].cmd, s.requests[r].phase.work, s.requests[r].phase.at;
    var sender := AccountToDomain(s.db.accounts[cmd.fromId]).value;
    var receiver := AccountToDomain(s.db.accounts[cmd.toId]).value;
    PrepareKeeps(cmd, CommandMoney(cmd).value, sender, receiver, work.tx.id, at);
    LoadKeepsId(s.db.accounts[cmd.fromId]);
    LoadKeepsId(s.db.accounts[cmd.toId]);
  }

  lemma InvInOrder(s: System)
    requires Inv(s)
    ensures InOrder(s.db, OpeningsOf(s.ops))
  {
    BooksStayInOrder(s.ops);
  }

  lemma InvFiled(s: System)
    requires Inv(s)
    ensures RowsFiled(s.db) && Tidy(s.db, OpeningsOf(s.ops))
  {
    BooksStayInOrder(s.ops);
  }

  /** Every step but a commit and an outside operation leaves the tables as they are. */
  lemma OtherStepsKeepDb(s: System, step: Step)
    requires Enabled(s, step) && !step.Commit? && !step.Outside?
    ensures Next(s, step).db == s.db && Next(s, step).ops == s.ops
  {
    hide AccountToDomain, Prepare, CommandMoney, KeyUsed, Stored;
  }

  lemma CommitWrites(s: System, r: RequestId)
    requires Enabled(s, Commit(r))
    ensures var work := s.requests[r].phase.work;
      Next(s, Commit(r)).db == if CommitError(s.db, work).None? then Written(s.db, work) else s.db
  {
    hide CommitError, Written;
  }

  /** A step changes the tables only under its own row locks, or - from outside - where there is none. */
  lemma RowsUnderLocksStay(s: System, step: Step, a: AccountId)
    requires Inv(s) && Enabled(s, step) && a in s.rowLocks && a in s.db.accounts
    requires Actor(step) != Some(s.rowLocks[a])
    ensures a in Next(s, step).db.accounts && Next(s, step).db.accounts[a] == s.db.accounts[a]
  {
    hide Next, Written, CommitError, LocalOk, Applied, Replay.InOrder, Books.TidyTransactions, Serial;
    match step {
      case Commit(r) =>
        CommitWrites(s, r);
        InvFiled(s);
        CommitElsewhere(s, r, a);
      case Outside(op) =>
        NextOutside(s, op);
        OutsideElsewhere(s.db, op, a);
      case _ => OtherStepsKeepDb(s, step);
    }
  }

  lemma NextOutside(s: System, op: Op)
    requires Enabled(s, Outside(op))
    ensures Next(s, Outside(op)) == s.(db := Applied(s.db, op), ops := s.ops + [op])
  {
  }

  lemma CommitElsewhere(s: System, r: RequestId, a: AccountId)
    requires Enabled(s, Commit(r)) && LocalOk(s, r) && RowsFiled(s.db)
    requires a in s.rowLocks && a in s.db.accounts && s.rowLocks[a] != r
    ensures a in Written(s.db, s.requests[r].phase.work).accounts
    ensures Written(s.db, s.requests[r].phase.work).accounts[a] == s.db.accounts[a]
  {
    hide Written, LocalOk;
    OwnRows(s, r);
    WrittenElsewhere(s.db, s.requests[r].phase.work, a);
  }

  // ----- The invariant is kept, part by part ------------------------------------------------

  /** A step of a request's own changes that request's phase and no other request; other steps change none. */
  lemma RequestsAfter(s: System, step: Step)
    requires Enabled(s, step)
    ensures Actor(step).None? ==> Next(s, step).requests == s.requests
    ensures Actor(step).Some? ==>
              step.r in Next(s, step).requests
              && Next(s, step).requests == s.requests[step.r := Next(s, step).requests[step.r]]
    ensures Actor(step).Some? && !step.Arrive? ==>
              step.r in s.requests && Next(s, step).requests[step.r].cmd == s.requests[step.r].cmd
  {
    hide AccountToDomain, Prepare, CommandMoney, KeyUsed, Stored, CommitError, Committed, Applied;
  }

  lemma ArriveIsNew(s: System, step: Step)
    requires Enabled(s, step)
    ensures step.Arrive? ==> step.r !in s.requests
  {
  }

  lemma RequestsOfOthersStay(s: System, step: Step, r: RequestId)
    requires Enabled(s, step) && r in s.requests && Actor(step) != Some(r)
    ensures r in Next(s, step).requests && Next(s, step).requests[r] == s.requests[r]
  {
    hide AccountToDomain, Prepare, CommandMoney, KeyUsed, Stored, CommitError, Committed, Applied;
  }

  lemma LocksOfOthersStay(s: System, step: Step, a: AccountId)
    requires Enabled(s, step) && a in s.rowLocks && Actor(step) != Some(s.rowLocks[a])
    ensures a in Next(s, step).rowLocks && Next(s, step).rowLocks[a] == s.rowLocks[a]
  {
    hide AccountToDomain, Prepare, CommandMoney, KeyUsed, Stored, CommitError, Committed, Applied;
  }

  lemma OthersStayOk(s: System, step: Step, r: RequestId)
    requires Inv(s) && Enabled(s, step) && r in s.requests && Actor(step) != Some(r)
    ensures r in Next(s, step).requests && LocalOk(Next(s, step), r)
  {
    hide Next, LocalOk, Serial, Enabled;
    var s' := Next(s, step);
    RequestsOfOthersStay(s, step, r);
    OpsAfter(s, step);
    forall a | a in s.rowLocks && s.rowLocks[a] == r
      ensures a in s'.rowLocks && s'.rowLocks[a] == r
      ensures a in s.db.accounts ==> a in s'.db.accounts && s'.db.accounts[a] == s.db.accounts[a]
    {
      LocksOfOthersStay(s, step, a);
      if a in s.db.accounts {
        RowsUnderLocksStay(s, step, a);
      }
    }
    HarmlessKeepsLocal(s, s', r);
  }

  lemma ActorStaysOk(s: System, step: Step)
    requires Enabled(s, step) && Actor(step).Some? && !step.Commit? && !step.Execute?
    requires Actor(step).value in s.requests ==> LocalOk(s, Actor(step).value)
    ensures Actor(step).value in Next(s, step).requests && LocalOk(Next(s, step), Actor(step).value)
  {
    hide AccountToDomain, Prepare, CommandMoney, KeyUsed, Stored, EntryAnswers, EntryPublishes;
  }

  lemma ExecuteOk(s: System, r: RequestId, txId: TransactionId, at: Stamps)
    requires Enabled(s, Execute(r, txId, at)) && LocalOk(s, r)
    ensures r in Next(s, Execute(r, txId, at)).requests && LocalOk(Next(s, Execute(r, txId, at)), r)
  {
    hide AccountToDomain, Prepare, CommandMoney;
    var p := s.requests[r].phase;
    if Prepare(s.requests[r].cmd, p.amount, p.sender, p.receiver, txId, at).Ok? {
      PrepareKeeps(s.requests[r].cmd, p.amount, p.sender, p.receiver, txId, at);
    }
  }

  lemma CommitStaysOk(s: System, r: RequestId)
    requires Enabled(s, Commit(r)) && LocalOk(s, r) && Serial(s) && Tidy(s.db, OpeningsOf(s.ops))
    ensures r in Next(s, Commit(r)).requests && LocalOk(Next(s, Commit(r)), r)
  {
    hide AccountToDomain, Prepare, CommandMoney, CommitError, Committed, Sequential, ReplayAll, FreshIds;
    if CommitError(s.db, s.requests[r].phase.work).None? {
      CommitIsSequential(s, r, OpeningsOf(s.ops));
      var s' := Next(s, Commit(r));
      assert s'.ops[..|s.ops|] == s.ops;
    }
  }

  /** The steps between taking the second key and leaving the unit of work. */
  predicate WorkingStep(step: Step) {
    step.LockSender? || step.LockReceiver? || step.Execute? || step.Commit?
  }

  lemma LocksStayOk(s: System, step: Step)
    requires LocksOk(s) && Enabled(s, step)
    ensures LocksOk(Next(s, step))
  {
    hide Next;
    var s' := Next(s, step);
    forall a | a in s'.rowLocks
      ensures s'.rowLocks[a] in s'.requests && a in LockedRows(s'.requests[s'.rowLocks[a]])
    {
      if WorkingStep(step) {
        WorkingLockOk(s, step, a);
      } else {
        OtherLockOk(s, step, a);
      }
    }
  }

  lemma WorkingLockOk(s: System, step: Step, a: AccountId)
    requires LocksOk(s) && Enabled(s, step) && WorkingStep(step) && a in Next(s, step).rowLocks
    ensures var s' := Next(s, step);
      s'.rowLocks[a] in s'.requests && a in LockedRows(s'.requests[s'.rowLocks[a]])
  {
    hide AccountToDomain, Prepare, CommandMoney, CommitError, Committed;
    assert a in s.rowLocks ==> s.rowLocks[a] in s.requests && a in LockedRows(s.requests[s.rowLocks[a]]);
  }

  lemma OtherLockOk(s: System, step: Step, a: AccountId)
    requires LocksOk(s) && Enabled(s, step) && !WorkingStep(step) && a in Next(s, step).rowLocks
    ensures var s' := Next(s, step);
      s'.rowLocks[a] in s'.requests && a in LockedRows(s'.requests[s'.rowLocks[a]])
  {
    hide CommandMoney, KeyUsed, Stored, Applied;
    assert a in s.rowLocks ==> s.rowLocks[a] in s.requests && a in LockedRows(s.requests[s.rowLocks[a]]);
  }

  /** Which transaction ids are in use after a step. */
  lemma IdsAfter(s: System, step: Step)
    requires Enabled(s, step)
    ensures s.drawn <= Next(s, step).drawn
    ensures Next(s, step).db.transactions.Keys
         == s.db.transactions.Keys
            + if step.Commit? && CommitError(s.db, s.requests[step.r].phase.work).None?
              then {s.requests[step.r].phase.work.tx.id} else {}
  {
    hide AccountToDomain, Prepare, CommandMoney, KeyUsed, Stored, CommitError;
    if step.Outside? {
      OutsideKeepsTransactions(s.db, step.op);
    }
  }

  lemma OutsideKeepsTransactions(db: Db, op: Op)
    requires !op.TransferOp?
    ensures Applied(db, op).transactions == db.transactions && Applied(db, op).outbox == db.outbox
  {
  }

  lemma PreparedAfter(s: System, step: Step, r: RequestId)
    requires Enabled(s, step) && r in Next(s, step).requests && PreparedId(Next(s, step).requests[r]).Some?
    ensures r in s.requests
    ensures if Actor(step) == Some(r)
            then step.Execute? && PreparedId(Next(s, step).requests[r]) == Some(step.txId)
                 && Next(s, step).drawn == s.drawn + {step.txId}
            else PreparedId(Next(s, step).requests[r]) == PreparedId(s.requests[r])
  {
    hide AccountToDomain, Prepare, CommandMoney, KeyUsed, Stored, CommitError, Committed, Applied;
    if step.Execute? && step.r == r {
      var p := s.requests[r].phase;
      PrepareKeeps(s.requests[r].cmd, p.amount, p.sender, p.receiver, step.txId, step.at);
    }
  }

  lemma IdsStayOk(s: System, step: Step)
    requires IdsOk(s) && Enabled(s, step)
    ensures IdsOk(Next(s, step))
  {
    hide Next, Enabled, CommitError;
    var s' := Next(s, step);
    IdsAfter(s, step);
    assert step.Commit? ==> step.r in s.requests && PreparedId(s.requests[step.r]).Some? by {
      CommitIsPrepared(s, step);
    }
    forall r | r in s'.requests && PreparedId(s'.requests[r]).Some?
      ensures PreparedId(s'.requests[r]).value in s'.drawn && PreparedId(s'.requests[r]).value !in s'.db.transactions
    {
      PreparedAfter(s, step, r);
      assert step.Execute? ==> step.txId !in s.drawn by { ExecuteDraws(s, step); }
    }
    forall r, u | r in s'.requests && u in s'.requests && r != u && PreparedId(s'.requests[r]).Some?
      ensures PreparedId(s'.requests[r]) != PreparedId(s'.requests[u])
    {
      PreparedAfter(s, step, r);
      if PreparedId(s'.requests[u]).Some? {
        PreparedAfter(s, step, u);
      }
      assert step.Execute? ==> step.txId !in s.drawn by { ExecuteDraws(s, step); }
    }
  }

  lemma CommitIsPrepared(s: System, step: Step)
    requires Enabled(s, step)
    ensures step.Commit? ==> step.r in s.requests && PreparedId(s.requests[step.r]).Some?
  {
  }

  lemma ExecuteDraws(s: System, step: Step)
    requires Enabled(s, step)
    ensures step.Execute? ==> step.txId !in s.drawn
  {
  }

  lemma ReplayAppend(ops: seq<Op>, op: Op)
    ensures ReplayAll(ops + [op]) == Applied(ReplayAll(ops), op)
    ensures FreshIds(ops) && (op.TransferOp? ==> op.txId !in ReplayAll(ops).transactions) ==> FreshIds(ops + [op])
  {
    var more := ops + [op];
    assert more[..|ops|] == ops;
    if FreshIds(ops) && (op.TransferOp? ==> op.txId !in ReplayAll(ops).transactions) {
      forall i | 0 <= i < |more| && more[i].TransferOp?
        ensures more[i].txId !in ReplayAll(more[..i]).transactions
      {
        if i < |ops| {
          assert more[..i] == ops[..i];
        }
      }
    }
  }

  lemma SerialStaysOk(s: System, step: Step)
    requires Inv(s) && Enabled(s, step)
    ensures Serial(Next(s, step))
  {
    hide Next, Applied, CommitError, Committed, LocalOk, ReplayAll;
    match step {
      case Commit(r) =>
        InvFiled(s);
        CommitSerial(s, r);
      case Outside(op) =>
        NextOutside(s, op);
        ReplayAppend(s.ops, op);
      case _ => OtherStepsKeepDb(s, step);
    }
  }

  lemma CommitSerial(s: System, r: RequestId)
    requires Enabled(s, Commit(r)) && LocalOk(s, r) && Serial(s) && IdsOk(s) && Tidy(s.db, OpeningsOf(s.ops))
    ensures Serial(Next(s, Commit(r)))
  {
    hide Prepare, AccountToDomain, CommandMoney, CommitError, Committed, LocalOk, ReplayAll, Sequential;
    var cmd, work, at := s.requests[r].cmd, s.requests[r].phase.work, s.requests[r].phase.at;
    if CommitError(s.db, work).None? {
      CommitIsSequential(s, r, OpeningsOf(s.ops));
      assert PreparedId(s.requests[r]).Some?;
      ReplayAppend(s.ops, TransferOp(cmd, work.tx.id, at));
    }
  }

  /** A request gets its entry in the step that appends it, and keeps it. */
  lemma EntryAfter(s: System, step: Step, r: RequestId)
    requires Enabled(s, step) && r in Next(s, step).requests
    ensures EntryOf(Next(s, step).requests[r])
         == if step.Commit? && step.r == r && CommitError(s.db, s.requests[r].phase.work).None? then Some(|s.ops|)
            else if r in s.requests then EntryOf(s.requests[r]) else None
  {
    hide AccountToDomain, Prepare, CommandMoney, KeyUsed, Stored, CommitError, Committed, Applied;
  }

  lemma RequestsStay(s: System, step: Step)
    requires Enabled(s, step)
    ensures s.requests.Keys <= Next(s, step).requests.Keys
  {
    hide AccountToDomain, Prepare, CommandMoney, KeyUsed, Stored, CommitError, Committed, Applied;
  }

  ghost predicate EntriesInRange(s: System) {
    forall r :: r in s.requests && EntryOf(s.requests[r]).Some? ==> EntryOf(s.requests[r]).value < |s.ops|
  }

  lemma OwnersStayOk(s: System, step: Step)
    requires OwnersOk(s) && EntriesInRange(s) && Enabled(s, step)
    ensures OwnersOk(Next(s, step))
  {
    hide Next, CommitError;
    var s' := Next(s, step);
    OpsAfter(s, step);
    RequestsStay(s, step);
    forall r, u | r in s'.requests && u in s'.requests && r != u && EntryOf(s'.requests[r]).Some?
      ensures EntryOf(s'.requests[r]) != EntryOf(s'.requests[u])
    {
      EntryAfter(s, step, r);
      EntryAfter(s, step, u);
    }
    forall i | 0 <= i < |s'.ops| && s'.ops[i].TransferOp?
      ensures exists r :: r in s'.requests && EntryOf(s'.requests[r]) == Some(i)
    {
      if i < |s.ops| {
        assert s'.ops[i] == s.ops[i];
        var r :| r in s.requests && EntryOf(s.requests[r]) == Some(i);
        EntryAfter(s, step, r);
      } else {
        EntryAfter(s, step, step.r);
      }
    }
  }

  /** The committed operations after a step. */
  lemma OpsAfter(s: System, step: Step)
    requires Enabled(s, step)
    ensures Next(s, step).ops == s.ops +
              if step.Outside? then [step.op]
              else if step.Commit? && CommitError(s.db, s.requests[step.r].phase.work).None?
                   then [TransferOp(s.requests[step.r].cmd, s.requests[step.r].phase.work.tx.id,
                                    s.requests[step.r].phase.at)]
              else []
    ensures step.Outside? ==> !step.op.TransferOp?
  {
    hide AccountToDomain, Prepare, CommandMoney, KeyUsed, Stored, CommitError, Committed, Applied;
  }

  lemma InvEntriesInRange(s: System)
    requires Inv(s)
    ensures EntriesInRange(s)
  {
    hide Serial, IdsOk, LocksOk, OwnersOk, Sequential, ReplayAll;
    forall r | r in s.requests && EntryOf(s.requests[r]).Some?
      ensures EntryOf(s.requests[r]).value < |s.ops|
    {
      assert LocalOk(s, r);
    }
  }

  lemma StepKeepsInv(s: System, step: Step)
    requires Inv(s) && Enabled(s, step)
    ensures Inv(Next(s, step))
  {
    hide Next, Enabled, Serial, IdsOk, LocksOk, OwnersOk, LocalOk;
    var s' := Next(s, step);
    InvFiled(s);
    InvEntriesInRange(s);
    LocksStayOk(s, step);
    IdsStayOk(s, step);
    SerialStaysOk(s, step);
    OwnersStayOk(s, step);
    forall r | r in s'.requests
      ensures LocalOk(s', r)
    {
      StepKeepsLocal(s, step, r);
    }
  }

  lemma StepKeepsLocal(s: System, step: Step, r: RequestId)
    requires Inv(s) && Enabled(s, step) && r in Next(s, step).requests
    ensures LocalOk(Next(s, step), r)
  {
    hide Next, Serial, IdsOk, LocksOk, OwnersOk, LocalOk;
    if Actor(step) != Some(r) {
      NewRequests(s, step, r);
      OthersStayOk(s, step, r);
    } else {
      match step {
        case Execute(_, txId, at) => ExecuteOk(s, r, txId, at);
        case Commit(_) =>
          InvFiled(s);
          CommitStaysOk(s, r);
        case _ => ActorStaysOk(s, step);
      }
    }
  }

  lemma NewRequests(s: System, step: Step, r: RequestId)
    requires Enabled(s, step) && r in Next(s, step).requests && Actor(step) != Some(r)
    ensures r in s.requests
  {
    hide AccountToDomain, Prepare, CommandMoney, KeyUsed, Stored, CommitError, Committed, Applied;
  }

  lemma {:induction false} RunKeepsInv(s: System, steps: seq<Step>)
    requires Inv(s) && ValidFrom(s, steps)
    ensures Inv(RunFrom(s, steps))
    decreases |steps|
  {
    hide Inv, Next, Enabled;
    if steps != [] {
      StepKeepsInv(s, steps[0]);
      RunKeepsInv(Next(s, steps[0]), steps[1..]);
    }
  }

  lemma InitialInv()
    ensures Inv(INITIAL)
  {
  }

  /**
    Serialisability. After any interleaving of any number of requests - leases
    expiring, keys lingering, releases lost, calls failing anywhere - the committed
    tables are those of running the committed operations one at a time in commit
    order, each request that committed gets the answer that this run gives it, and
    every committed transfer is that of exactly one request.
  */
  lemma Serializable(steps: seq<Step>)
    requires ValidFrom(INITIAL, steps)
    ensures Serial(RunFrom(INITIAL, steps))
    ensures var s := RunFrom(INITIAL, steps);
      forall r :: r in s.requests && EntryOf(s.requests[r]).Some? ==>
        EntryAnswers(s.ops, s.requests[r].cmd, s.requests[r].phase.response, EntryOf(s.requests[r]).value)
    ensures OwnersOk(RunFrom(INITIAL, steps))
  {
    hide RunFrom, ValidFrom, OwnersOk;
    InitialInv();
    RunKeepsInv(INITIAL, steps);
    var s := RunFrom(INITIAL, steps);
    forall r | r in s.requests && EntryOf(s.requests[r]).Some?
      ensures EntryAnswers(s.ops, s.requests[r].cmd, s.requests[r].phase.response, EntryOf(s.requests[r]).value)
    {
      assert LocalOk(s, r);
    }
  }

  /**
    So in every reachable state the books are in order: each balance is the opening
    balance plus completed incoming minus completed outgoing amounts and never
    negative, each currency is conserved, idempotency keys are unique, and the outbox
    agrees with the completed transactions.
  */
  lemma BooksInOrderInEveryRun(steps: seq<Step>)
    requires ValidFrom(INITIAL, steps)
    ensures InOrder(RunFrom(INITIAL, steps).db, OpeningsOf(RunFrom(INITIAL, steps).ops))
  {
    hide RunFrom, ValidFrom;
    InitialInv();
    RunKeepsInv(INITIAL, steps);
    InvInOrder(RunFrom(INITIAL, steps));
  }
}
