/**
  Any number of `TransferService.initiate` calls in flight at once, interleaved step
  by step over shared committed tables, row locks, Redis keys and event bus, with
  an environment in which leases expire, releases get lost, calls fail at any
  point, accounts are opened and their status is changed.
*/
module Protocol {
  import opened Prelude
  import opened Domain
  import opened Accounts
  import opened Mappers
  import opened TransferSpec
  import opened Replay

  type RequestId = nat

  /** Where a request is. */
  datatype Phase =
    | Looking
      /** Looked up, nothing found; holds `got` of its two sorted lock keys. */
    | Acquiring(amount: Money, got: nat)
      /** Holds both keys; the unit of work is open. */
    | Entered(amount: Money)
    | SenderLoaded(amount: Money, sender: AccountState)
    | BothLoaded(amount: Money, sender: AccountState, receiver: AccountState)
      /** The domain calls are done; the next thing is the commit. */
    | Prepared(work: Work, at: Stamps)
      /** Out of the unit of work, `left` keys still to delete; `entry` is the operation it committed. */
    | Releasing(left: nat, response: Response, events: seq<TransactionEvent>, entry: Option<nat>)
    | Finished(response: Response, entry: Option<nat>)

  datatype Request = Request(cmd: Command, phase: Phase)

  /**
    `redis` is the set of keys with a live lease (nobody's in particular), `drawn`
    the transaction ids generated so far, `ops` the committed operations in commit order.
  */
  datatype System = System(
    db: Db, requests: map<RequestId, Request>, rowLocks: map<AccountId, RequestId>, redis: set<AccountId>,
    bus: seq<TransactionEvent>, drawn: set<TransactionId>, ops: seq<Op>)

  const INITIAL: System := System(EMPTY_DB, map[], map[], {}, [], {}, [])

  datatype Step =
    | Arrive(r: RequestId, cmd: Command)
    | Lookup(r: RequestId)
    | TakeKey(r: RequestId)
    | TimeOut(r: RequestId)
    | LockSender(r: RequestId)
    | LockReceiver(r: RequestId)
    | Execute(r: RequestId, txId: TransactionId, at: Stamps)
    | Commit(r: RequestId)
    | Interrupt(r: RequestId)
    | Release(r: RequestId)
    | LoseRelease(r: RequestId)
    | Answer(r: RequestId)
    | Expire(key: AccountId)
    | Linger(key: AccountId)
    | Outside(op: Op)

  // ----- The steps ----------------------------------------------------------------

  /** The `n`-th of the sorted lock keys. */
  function LockKey(cmd: Command, n: nat): AccountId {
    if n == 0 then SortedKeys(cmd)[0] else SortedKeys(cmd)[1]
  }

  /** How many of its lock keys a request has taken and not yet tried to delete. */
  function KeysTaken(p: Phase): nat {
    match p
    case Looking => 0
    case Acquiring(_, got) => got
    case Entered(_) => 2
    case SenderLoaded(_, _) => 2
    case BothLoaded(_, _, _) => 2
    case Prepared(_, _) => 2
    case Releasing(left, _, _, _) => left
    case Finished(_, _) => 0
  }

  function At(s: System, r: RequestId, phase: Phase): System
    requires r in s.requests
  {
    s.(requests := s.requests[r := s.requests[r].(phase := phase)])
  }

  /** The end of the unit of work: the database session is over and its row locks with it. */
  function Leave(s: System, r: RequestId, response: Response, events: seq<TransactionEvent>, entry: Option<nat>): System
    requires r in s.requests
  {
    At(s, r, Releasing(KeysTaken(s.requests[r].phase), response, events, entry))
    .(rowLocks := map a | a in s.rowLocks && s.rowLocks[a] != r :: s.rowLocks[a])
  }

  function Raise(s: System, r: RequestId, e: Error): System
    requires r in s.requests
  {
    Leave(s, r, Raised(e), [], None)
  }

  predicate Active(s: System, r: RequestId) {
    r in s.requests
  }

  /** Whether `a` may be row-locked by `r`: it is unlocked or locked by `r` itself. */
  predicate RowFree(s: System, a: AccountId, r: RequestId) {
    a !in s.rowLocks || s.rowLocks[a] == r
  }

  ghost predicate Enabled(s: System, step: Step) {
    match step
    case Arrive(r, _) => r !in s.requests
    case Lookup(r) => Active(s, r) && s.requests[r].phase.Looking?
    case TakeKey(r) =>
      && Active(s, r) && s.requests[r].phase.Acquiring?
      && LockKey(s.requests[r].cmd, s.requests[r].phase.got) !in s.redis
    case TimeOut(r) =>
      && Active(s, r) && s.requests[r].phase.Acquiring?
      && LockKey(s.requests[r].cmd, s.requests[r].phase.got) in s.redis
    case LockSender(r) =>
      && Active(s, r) && s.requests[r].phase.Entered?
      && (s.requests[r].cmd.fromId in s.db.accounts ==> RowFree(s, s.requests[r].cmd.fromId, r))
    case LockReceiver(r) =>
      && Active(s, r) && s.requests[r].phase.SenderLoaded?
      && (s.requests[r].cmd.toId in s.db.accounts ==> RowFree(s, s.requests[r].cmd.toId, r))
    case Execute(r, txId, _) => Active(s, r) && s.requests[r].phase.BothLoaded? && txId !in s.drawn
    case Commit(r) =>
      && Active(s, r) && s.requests[r].phase.Prepared?
      && s.requests[r].phase.work.sender.id in s.db.accounts && s.requests[r].phase.work.receiver.id in s.db.accounts
    case Interrupt(r) =>
      Active(s, r) && !s.requests[r].phase.Releasing? && !s.requests[r].phase.Finished?
    case Release(r) => Active(s, r) && s.requests[r].phase.Releasing? && s.requests[r].phase.left > 0
    case LoseRelease(r) => Active(s, r) && s.requests[r].phase.Releasing? && s.requests[r].phase.left > 0
    case Answer(r) => Active(s, r) && s.requests[r].phase.Releasing? && s.requests[r].phase.left == 0
    case Expire(_) => true
    case Linger(_) => true
    case Outside(op) => !op.TransferOp? && (op.StatusOp? ==> op.id !in s.rowLocks)
  }

  ghost function LookedUp(s: System, r: RequestId): System
    requires Active(s, r)
  {
    var cmd := s.requests[r].cmd;
    if KeyUsed(s.db, cmd.key) then At(s, r, Finished(Stored(RowOfKey(s.db, cmd.key)), None))
    else
      match CommandMoney(cmd)
      case Err(e) => At(s, r, Finished(Raised(e), None))
      case Ok(amount) => At(s, r, Acquiring(amount, 0))
  }

  function KeyTaken(s: System, r: RequestId): System
    requires Active(s, r) && s.requests[r].phase.Acquiring?
  {
    var p := s.requests[r].phase;
    At(s, r, if p.got == 0 then Acquiring(p.amount, 1) else Entered(p.amount))
    .(redis := s.redis + {LockKey(s.requests[r].cmd, p.got)})
  }

  function SenderLocked(s: System, r: RequestId): System
    requires Active(s, r) && s.requests[r].phase.Entered?
  {
    var a := s.requests[r].cmd.fromId;
    if a !in s.db.accounts then Raise(s, r, ResourceNotFound)
    else
      match AccountToDomain(s.db.accounts[a])
      case Err(e) => Raise(s, r, e)
      case Ok(sender) =>
        At(s, r, SenderLoaded(s.requests[r].phase.amount, sender)).(rowLocks := s.rowLocks[a := r])
  }

  function ReceiverLocked(s: System, r: RequestId): System
    requires Active(s, r) && s.requests[r].phase.SenderLoaded?
  {
    var a, p := s.requests[r].cmd.toId, s.requests[r].phase;
    if a !in s.db.accounts then Raise(s, r, ResourceNotFound)
    else
      match AccountToDomain(s.db.accounts[a])
      case Err(e) => Raise(s, r, e)
      case Ok(receiver) =>
        At(s, r, BothLoaded(p.amount, p.sender, receiver)).(rowLocks := s.rowLocks[a := r])
  }

  function Executed(s: System, r: RequestId, txId: TransactionId, at: Stamps): System
    requires Active(s, r) && s.requests[r].phase.BothLoaded?
  {
    var p := s.requests[r].phase;
    match Prepare(s.requests[r].cmd, p.amount, p.sender, p.receiver, txId, at)
    case Err(e) => Raise(s, r, e)
    case Ok(work) => At(s, r, Prepared(work, at)).(drawn := s.drawn + {txId})
  }

  ghost function CommitDone(s: System, r: RequestId): System
    requires Enabled(s, Commit(r))
  {
    var cmd, work, at := s.requests[r].cmd, s.requests[r].phase.work, s.requests[r].phase.at;
    match CommitError(s.db, work)
    case Some(e) => Raise(s, r, e)
    case None =>
      var done := Committed(s.db, work);
      Leave(s, r, done.response, done.published, Some(|s.ops|))
      .(db := done.db, ops := s.ops + [TransferOp(cmd, work.tx.id, at)])
  }

  function Interrupted(s: System, r: RequestId): System
    requires Active(s, r)
  {
    if s.requests[r].phase.Looking? then At(s, r, Finished(Raised(Infrastructure), None))
    else Raise(s, r, Infrastructure)
  }

  /** One key fewer to delete; `lost` says the DEL did not get through. */
  function KeyReleased(s: System, r: RequestId, lost: bool): System
    requires Active(s, r) && s.requests[r].phase.Releasing? && s.requests[r].phase.left > 0
  {
    var p := s.requests[r].phase;
    At(s, r, p.(left := p.left - 1))
    .(redis := if lost then s.redis else s.redis - {LockKey(s.requests[r].cmd, p.left - 1)})
  }

  /** The end of `initiate`: the events of a completed transfer go to the bus, the caller gets its answer. */
  function Answered(s: System, r: RequestId): System
    requires Active(s, r) && s.requests[r].phase.Releasing?
  {
    var p := s.requests[r].phase;
    At(s, r, Finished(p.response, p.entry)).(bus := s.bus + p.events)
  }

  ghost function Next(s: System, step: Step): System
    requires Enabled(s, step)
  {
    match step
    case Arrive(r, cmd) => s.(requests := s.requests[r := Request(cmd, Looking)])
    case Lookup(r) => LookedUp(s, r)
    case TakeKey(r) => KeyTaken(s, r)
    case TimeOut(r) => Raise(s, r, ConcurrencyConflict)
    case LockSender(r) => SenderLocked(s, r)
    case LockReceiver(r) => ReceiverLocked(s, r)
    case Execute(r, txId, at) => Executed(s, r, txId, at)
    case Commit(r) => CommitDone(s, r)
    case Interrupt(r) => Interrupted(s, r)
    case Release(r) => KeyReleased(s, r, false)
    case LoseRelease(r) => KeyReleased(s, r, true)
    case Answer(r) => Answered(s, r)
    case Expire(key) => s.(redis := s.redis - {key})
    case Linger(key) => s.(redis := s.redis + {key})
    case Outside(op) => s.(db := Applied(s.db, op), ops := s.ops + [op])
  }

  // ----- Runs -----------------------------------------------------------------------

  ghost predicate ValidFrom(s: System, steps: seq<Step>)
    decreases |steps|
  {
    steps == [] || (Enabled(s, steps[0]) && ValidFrom(Next(s, steps[0]), steps[1..]))
  }

  ghost function RunFrom(s: System, steps: seq<Step>): System
    requires ValidFrom(s, steps)
    decreases |steps|
  {
    if steps == [] then s else RunFrom(Next(s, steps[0]), steps[1..])
  }
}
