/** Where the events of a transfer end up: account events in the outbox, transaction events on the bus. */
module ProtocolEvents {
  import opened Prelude
  import opened Domain
  import opened Transactions
  import opened Mappers
  import opened TransferSpec
  import opened Books
  import opened Replay
  import opened Protocol
  import opened ProtocolSafety
  import opened ProtocolIdempotency

  /** The events on the bus about one transaction, in order. */
  function OnBus(bus: seq<TransactionEvent>, t: TransactionId): seq<TransactionEvent> {
    if bus == [] then []
    else OnBus(bus[..|bus| - 1], t) + (if bus[|bus| - 1].transactionId == t then [bus[|bus| - 1]] else [])
  }

  lemma OnBusAppend(bus: seq<TransactionEvent>, e: TransactionEvent, t: TransactionId)
    ensures OnBus(bus + [e], t) == OnBus(bus, t) + (if e.transactionId == t then [e] else [])
  {
    assert (bus + [e])[..|bus + [e]| - 1] == bus;
  }

  lemma {:induction false} OnBusConcat(bus: seq<TransactionEvent>, events: seq<TransactionEvent>, u: TransactionId,
                                       t: TransactionId)
    requires forall i :: 0 <= i < |events| ==> events[i].transactionId == u
    ensures OnBus(bus + events, t) == OnBus(bus, t) + if t == u then events else []
  {
    hide OnBus;
    if events == [] {
      assert bus + events == bus;
    } else {
      var init, last := events[..|events| - 1], events[|events| - 1];
      OnBusConcat(bus, init, u, t);
      OnBusAppend(bus + init, last, t);
      assert init + [last] == events;
      assert bus + init + [last] == bus + events;
    }
  }

  lemma {:induction false} NotOnBus(bus: seq<TransactionEvent>, t: TransactionId)
    requires forall i :: 0 <= i < |bus| ==> bus[i].transactionId != t
    ensures OnBus(bus, t) == []
  {
    if bus != [] {
      NotOnBus(bus[..|bus| - 1], t);
    }
  }

  /** Everything a completed transaction records, in the order it records it. */
  function Trail(cmd: Command, t: TransactionId): seq<TransactionEvent>
    requires CommandMoney(cmd).Ok?
  {
    var amount := CommandMoney(cmd).value;
    [TransactionInitiated(t, cmd.fromId, cmd.toId, amount, cmd.key),
     TransactionProcessing(t, cmd.fromId, cmd.toId, amount),
     TransactionCompleted(t, cmd.fromId, cmd.toId, amount)]
  }

  /** What a request that committed has to publish: its trail if it completed, nothing if it failed. */
  ghost predicate Due(cmd: Command, t: TransactionId, response: Response, events: seq<TransactionEvent>) {
    CommandMoney(cmd).Ok? && events == if response.Returned? then Trail(cmd, t) else []
  }

  ghost predicate BusOkAt(s: System, r: RequestId)
    requires r in s.requests
  {
    CommittedId(s, r).Some? ==>
      var t, cmd, p := CommittedId(s, r).value, s.requests[r].cmd, s.requests[r].phase;
      if p.Releasing? then Due(cmd, t, p.response, p.events) && OnBus(s.bus, t) == []
      else Due(cmd, t, p.response, OnBus(s.bus, t))
  }

  /** Events on the bus are about stored transactions, and per request just what is due. */
  ghost predicate BusOk(s: System) {
    && (forall i :: 0 <= i < |s.bus| ==> s.bus[i].transactionId in s.db.transactions)
    && (forall r :: r in s.requests ==> BusOkAt(s, r))
  }

  lemma CommitIsDue(s: System, r: RequestId)
    requires Enabled(s, Commit(r)) && LocalOk(s, r) && CommitError(s.db, s.requests[r].phase.work).None?
    ensures var s' := Next(s, Commit(r));
      && r in s'.requests && s'.requests[r].cmd == s.requests[r].cmd && s'.requests[r].phase.Releasing?
      && Due(s.requests[r].cmd, s.requests[r].phase.work.tx.id, s'.requests[r].phase.response,
             s'.requests[r].phase.events)
  {
    hide MoveMoney, AccountToDomain, CommandMoney, CommitError, ColumnMoney, Written;
    var cmd, work, at := s.requests[r].cmd, s.requests[r].phase.work, s.requests[r].phase.at;
    var sender := AccountToDomain(s.db.accounts[cmd.fromId]).value;
    var receiver := AccountToDomain(s.db.accounts[cmd.toId]).value;
    var tx := Initiated(work.tx.id, cmd.fromId, cmd.toId, CommandMoney(cmd).value, cmd.key, Transfer,
                        at.created, at.touched).value;
    MoveMoneyMeans(tx, sender, receiver, at);
  }

  /** The bus only changes when a request answers. */
  lemma BusAfter(s: System, step: Step)
    requires Enabled(s, step)
    ensures Next(s, step).bus == s.bus + if step.Answer? then s.requests[step.r].phase.events else []
  {
    hide AccountToDomain, Prepare, CommandMoney, KeyUsed, Stored, CommitError, Committed, Applied;
  }

  /** The way out: a request that has committed keeps what it has to publish until it answers, then is finished. */
  lemma WayOut(s: System, step: Step, r: RequestId)
    requires Enabled(s, step) && r in s.requests && EntryOf(s.requests[r]).Some?
    ensures r in Next(s, step).requests
    ensures var p, p' := s.requests[r].phase, Next(s, step).requests[r].phase;
      if step.Answer? && step.r == r then p.Releasing? && p' == Finished(p.response, p.entry)
      else if p.Finished? then p' == p
      else p.Releasing? && p'.Releasing? && p'.response == p.response && p'.events == p.events
  {
    hide AccountToDomain, Prepare, CommandMoney, KeyUsed, Stored, CommitError, Committed, Applied;
  }

  lemma StepKeepsBusOkAt(s: System, step: Step, r: RequestId)
    requires Inv(s) && Remembered(s) && IdsDiffer(s) && BusOk(s) && Enabled(s, step) && r in Next(s, step).requests
    ensures BusOkAt(Next(s, step), r)
  {
    hide Next, Enabled, CommitError, RowAnswers, Serial, LocksOk, OwnersOk, LocalOk, Due, OnBus;
    var s' := Next(s, step);
    CommittedIdAfter(s, step, r);
    BusAfter(s, step);
    if step.Commit? && step.r == r && CommitError(s.db, s.requests[r].phase.work).None? {
      assert LocalOk(s, r);
      CommitIsDue(s, r);
      assert PreparedId(s.requests[r]) == Some(s.requests[r].phase.work.tx.id);
      NotOnBus(s.bus, s.requests[r].phase.work.tx.id);
      assert s'.bus == s.bus;
    } else if r in s.requests && CommittedId(s, r).Some? {
      WayOut(s, step, r);
      AnswerStays(s, step, r);
      assert BusOkAt(s, r);
      if step.Answer? {
        AnswerIsReleasing(s, step.r);
        AnswerOnBus(s, step.r, r);
      } else {
        assert s'.bus == s.bus;
      }
    }
  }

  lemma AnswerIsReleasing(s: System, a: RequestId)
    requires Enabled(s, Answer(a))
    ensures a in s.requests && s.requests[a].phase.Releasing?
  {
  }

  /** Answering adds what is due to the request's own transaction and nothing to another's. */
  lemma AnswerOnBus(s: System, a: RequestId, r: RequestId)
    requires Inv(s) && Remembered(s) && IdsDiffer(s) && BusOk(s) && a in s.requests && s.requests[a].phase.Releasing?
    requires r in s.requests && CommittedId(s, r).Some?
    ensures OnBus(s.bus + s.requests[a].phase.events, CommittedId(s, r).value)
         == if a == r then s.requests[a].phase.events else OnBus(s.bus, CommittedId(s, r).value)
    ensures forall i :: 0 <= i < |s.requests[a].phase.events| ==>
              s.requests[a].phase.events[i].transactionId in s.db.transactions
  {
    hide OnBus, RowAnswers, Serial, LocksOk, OwnersOk, LocalOk;
    var events, t := s.requests[a].phase.events, CommittedId(s, r).value;
    assert BusOkAt(s, a) && BusOkAt(s, r);
    if CommittedId(s, a).Some? {
      assert RememberedAt(s, a, EntryOf(s.requests[a]).value);
      OnBusConcat(s.bus, events, CommittedId(s, a).value, t);
    } else {
      NoEntryNoEvents(s, a);
      assert s.bus + events == s.bus;
    }
  }

  lemma NoEntryNoEvents(s: System, a: RequestId)
    requires Inv(s) && Remembered(s) && a in s.requests && s.requests[a].phase.Releasing? && CommittedId(s, a).None?
    ensures s.requests[a].phase.events == []
  {
    hide RowAnswers, Serial, LocksOk, OwnersOk, IdsOk, EntryAnswers, EntryPublishes;
    assert LocalOk(s, a);
    if EntryOf(s.requests[a]).Some? {
      assert RememberedAt(s, a, EntryOf(s.requests[a]).value);
    }
  }

  lemma StepKeepsBusOk(s: System, step: Step)
    requires Inv(s) && Remembered(s) && IdsDiffer(s) && BusOk(s) && Enabled(s, step)
    ensures BusOk(Next(s, step))
  {
    hide Next, Inv, Remembered, IdsDiffer, BusOkAt, CommittedId;
    var s' := Next(s, step);
    BusAfter(s, step);
    StepKeepsRows(s, step);
    if step.Answer? {
      EventsAreStored(s, step.r);
    }
    forall r | r in s'.requests
      ensures BusOkAt(s', r)
    {
      StepKeepsBusOkAt(s, step, r);
    }
  }

  lemma EventsAreStored(s: System, a: RequestId)
    requires Inv(s) && Remembered(s) && IdsDiffer(s) && BusOk(s) && a in s.requests && s.requests[a].phase.Releasing?
    ensures forall i :: 0 <= i < |s.requests[a].phase.events| ==>
              s.requests[a].phase.events[i].transactionId in s.db.transactions
  {
    hide RowAnswers, Serial, LocksOk, OwnersOk, LocalOk;
    if CommittedId(s, a).Some? {
      AnswerOnBus(s, a, a);
    } else {
      NoEntryNoEvents(s, a);
    }
  }

  ghost predicate EventInv(s: System) {
    Inv(s) && Remembered(s) && IdsDiffer(s) && BusOk(s)
  }

  lemma {:induction false} RunKeepsEventInv(s: System, steps: seq<Step>)
    requires EventInv(s) && ValidFrom(s, steps)
    ensures EventInv(RunFrom(s, steps))
    decreases |steps|
  {
    hide Inv, Remembered, IdsDiffer, BusOk, Next, Enabled;
    if steps != [] {
      StepKeepsBusOk(s, steps[0]);
      StepKeepsIdsDiffer(s, steps[0]);
      StepKeepsRemembered(s, steps[0]);
      StepKeepsInv(s, steps[0]);
      RunKeepsEventInv(Next(s, steps[0]), steps[1..]);
    }
  }

  /**
    Event delivery. Take any request that committed and has returned, in any run. If
    its transfer completed, the outbox has exactly its debit and its credit, in that
    order, and the bus exactly its three transaction events, in the order recorded -
    every event once, account events in one place, transaction events in the other.
    If it failed, the bus has nothing about it - its transaction events are lost -
    and the outbox at most the debit of the sender's copy.
  */
  lemma EventsAreDeliveredOnce(steps: seq<Step>, r: RequestId)
    requires ValidFrom(INITIAL, steps)
    requires var s := RunFrom(INITIAL, steps);
             r in s.requests && s.requests[r].phase.Finished? && s.requests[r].phase.entry.Some?
    ensures var s := RunFrom(INITIAL, steps);
      && CommittedId(s, r).Some?
      && var t, cmd := CommittedId(s, r).value, s.requests[r].cmd;
      && t in s.db.transactions && AllMove(s.db.outbox)
      && MessagesFit(s.db.transactions[t], About(s.db.outbox, t))
      && CommandMoney(cmd).Ok?
      && OnBus(s.bus, t) == if s.db.transactions[t].status == Completed then Trail(cmd, t) else []
  {
    hide RunFrom, ValidFrom, Inv, IdsDiffer, OnBus, About;
    InitialEventInv();
    RunKeepsEventInv(INITIAL, steps);
    var s := RunFrom(INITIAL, steps);
    InvOutboxTidy(s);
    assert RememberedAt(s, r, EntryOf(s.requests[r]).value);
    assert BusOkAt(s, r);
    StatusOfAnswer(s.db.transactions[CommittedId(s, r).value], s.requests[r].phase.response);
  }

  lemma InitialEventInv()
    ensures EventInv(INITIAL)
  {
    InitialInv();
  }

  lemma InvOutboxTidy(s: System)
    requires Inv(s)
    ensures OutboxTidy(s.db)
  {
    InvInOrder(s);
  }

  lemma StatusOfAnswer(row: TransactionRow, response: Response)
    requires RowAnswers(row, response)
    ensures response.Returned? <==> row.status == Completed
  {
    hide ColumnMoney;
  }
}
