/** Requests that committed nothing: every answer they get has its cause. */
module ProtocolAnswers {
  import opened Prelude
  import opened Domain
  import opened Mappers
  import opened TransferSpec
  import opened Replay
  import opened Protocol
  import opened ProtocolSafety

  /**
    Run alone on the tables as they were after `i` committed operations, the request
    gets this answer: from its lookup on or, with the lookup behind it, from loading on.
  */
  ghost predicate AnsweredAt(ops: seq<Op>, cmd: Command, response: Response, i: nat, txId: TransactionId, at: Stamps) {
    && i <= |ops|
    && (|| Sequential(ReplayAll(ops[..i]), cmd, txId, at).response == response
        || (&& CommandMoney(cmd).Ok?
            && Locked(ReplayAll(ops[..i]), cmd, CommandMoney(cmd).value, txId, at).response == response))
  }

  /** Something broke down, a key was taken, or it is the answer for the tables at some point of the run. */
  ghost predicate Caused(ops: seq<Op>, cmd: Command, response: Response) {
    || response == Raised(Infrastructure)
    || response == Raised(ConcurrencyConflict)
    || exists i: nat, txId: TransactionId, at: Stamps :: AnsweredAt(ops, cmd, response, i, txId, at)
  }

  predicate HasAnswer(p: Phase) {
    p.Releasing? || p.Finished?
  }

  ghost predicate CausedAt(s: System, r: RequestId)
    requires r in s.requests
  {
    var req := s.requests[r];
    HasAnswer(req.phase) && EntryOf(req).None? ==> Caused(s.ops, req.cmd, req.phase.response)
  }

  ghost predicate AllCaused(s: System) {
    forall r :: r in s.requests ==> CausedAt(s, r)
  }

  lemma CauseStays(ops: seq<Op>, ops': seq<Op>, cmd: Command, response: Response)
    requires ops <= ops' && Caused(ops, cmd, response)
    ensures Caused(ops', cmd, response)
  {
    hide Sequential, Locked, ReplayAll, CommandMoney;
    if i: nat, txId: TransactionId, at: Stamps :| AnsweredAt(ops, cmd, response, i, txId, at) {
      assert ops'[..i] == ops[..i];
      assert AnsweredAt(ops', cmd, response, i, txId, at);
    }
  }

  /** An answer that is right for the tables as they are now has its cause. */
  lemma CausedNow(s: System, cmd: Command, response: Response, txId: TransactionId, at: Stamps)
    requires Serial(s)
    requires || Sequential(s.db, cmd, txId, at).response == response
             || (&& CommandMoney(cmd).Ok?
                 && Locked(s.db, cmd, CommandMoney(cmd).value, txId, at).response == response)
    ensures Caused(s.ops, cmd, response)
  {
    hide Sequential, Locked, ReplayAll, CommandMoney, FreshIds;
    assert s.ops[..|s.ops|] == s.ops;
    assert AnsweredAt(s.ops, cmd, response, |s.ops|, txId, at);
  }

  const SOME_TIME: Stamps := Stamps(0, 0, 0, 0, 0, 0)

  lemma LookupCaused(s: System, r: RequestId)
    requires Serial(s) && Enabled(s, Lookup(r)) && HasAnswer(Next(s, Lookup(r)).requests[r].phase)
    ensures Caused(s.ops, s.requests[r].cmd, Next(s, Lookup(r)).requests[r].phase.response)
  {
    hide Stored, CommandMoney, Locked, Serial, Caused;
    CausedNow(s, s.requests[r].cmd, Next(s, Lookup(r)).requests[r].phase.response, 0, SOME_TIME);
  }

  lemma LoadCaused(s: System, step: Step)
    requires Serial(s) && Enabled(s, step) && (step.LockSender? || step.LockReceiver?) && LocalOk(s, step.r)
    requires HasAnswer(Next(s, step).requests[step.r].phase)
    ensures Caused(s.ops, s.requests[step.r].cmd, Next(s, step).requests[step.r].phase.response)
  {
    hide CommandMoney, Sequential, AccountToDomain, Prepare, Committed, Serial, Caused;
    CausedNow(s, s.requests[step.r].cmd, Next(s, step).requests[step.r].phase.response, 0, SOME_TIME);
  }

  lemma ExecuteCaused(s: System, r: RequestId, txId: TransactionId, at: Stamps)
    requires Serial(s) && Enabled(s, Execute(r, txId, at)) && LocalOk(s, r)
    requires HasAnswer(Next(s, Execute(r, txId, at)).requests[r].phase)
    ensures Caused(s.ops, s.requests[r].cmd, Next(s, Execute(r, txId, at)).requests[r].phase.response)
  {
    hide CommandMoney, Sequential, AccountToDomain, Prepare, Committed, Serial, Caused;
    CausedNow(s, s.requests[r].cmd, Next(s, Execute(r, txId, at)).requests[r].phase.response, txId, at);
  }

  /** A commit that is refused gets the answer of loading, moving and committing now. */
  lemma CommitCaused(s: System, r: RequestId)
    requires Serial(s) && Enabled(s, Commit(r)) && LocalOk(s, r) && CommitError(s.db, s.requests[r].phase.work).Some?
    ensures r in Next(s, Commit(r)).requests && HasAnswer(Next(s, Commit(r)).requests[r].phase)
    ensures Caused(s.ops, s.requests[r].cmd, Next(s, Commit(r)).requests[r].phase.response)
  {
    hide CommandMoney, Sequential, AccountToDomain, Prepare, CommitError, Serial, Caused;
    var work, at := s.requests[r].phase.work, s.requests[r].phase.at;
    CausedNow(s, s.requests[r].cmd, Next(s, Commit(r)).requests[r].phase.response, work.tx.id, at);
  }

  /** Steps whose answer, if they give one, does not depend on the tables. */
  predicate PlainStep(step: Step) {
    step.TakeKey? || step.TimeOut? || step.Interrupt? || step.Release? || step.LoseRelease? || step.Answer?
  }

  lemma PlainAnswers(s: System, step: Step)
    requires Enabled(s, step) && PlainStep(step)
    ensures step.r in s.requests && step.r in Next(s, step).requests
    ensures var p, p' := s.requests[step.r].phase, Next(s, step).requests[step.r].phase;
      HasAnswer(p') ==>
        || (HasAnswer(p) && p'.response == p.response)
        || p'.response == Raised(Infrastructure)
        || p'.response == Raised(ConcurrencyConflict)
  {
  }

  lemma OwnStepCaused(s: System, step: Step)
    requires Inv(s) && AllCaused(s) && Enabled(s, step) && Actor(step).Some? && !step.Arrive?
    requires step.r in Next(s, step).requests && EntryOf(Next(s, step).requests[step.r]).None?
    requires HasAnswer(Next(s, step).requests[step.r].phase) && step.r in s.requests
    ensures Caused(s.ops, s.requests[step.r].cmd, Next(s, step).requests[step.r].phase.response)
  {
    hide Next, Enabled, Serial, LocalOk, IdsOk, OwnersOk, LocksOk, CommitError, Caused;
    EntryAfter(s, step, step.r);
    assert CausedAt(s, step.r);
    BreakdownsAreCaused(s.ops, s.requests[step.r].cmd);
    if step.Lookup? {
      LookupCaused(s, step.r);
    } else if step.LockSender? || step.LockReceiver? {
      LoadCaused(s, step);
    } else if step.Execute? {
      ExecuteCaused(s, step.r, step.txId, step.at);
    } else if step.Commit? {
      CommitCaused(s, step.r);
    } else {
      PlainAnswers(s, step);
    }
  }

  lemma BreakdownsAreCaused(ops: seq<Op>, cmd: Command)
    ensures Caused(ops, cmd, Raised(Infrastructure)) && Caused(ops, cmd, Raised(ConcurrencyConflict))
  {
  }

  lemma StepKeepsCaused(s: System, step: Step)
    requires Inv(s) && AllCaused(s) && Enabled(s, step)
    ensures AllCaused(Next(s, step))
  {
    hide Next, Enabled, Inv, Caused, CommitError;
    var s' := Next(s, step);
    RequestsAfter(s, step);
    OpsAfter(s, step);
    forall r | r in s'.requests
      ensures CausedAt(s', r)
    {
      EntryAfter(s, step, r);
      if r !in s.requests {
        ArrivesLooking(s, step, r);
      } else if HasAnswer(s'.requests[r].phase) && EntryOf(s'.requests[r]).None? {
        assert CausedAt(s, r);
        ArriveIsNew(s, step);
        if Actor(step) == Some(r) {
          OwnStepCaused(s, step);
        }
        CauseStays(s.ops, s'.ops, s'.requests[r].cmd, s'.requests[r].phase.response);
      }
    }
  }

  lemma ArrivesLooking(s: System, step: Step, r: RequestId)
    requires Enabled(s, step) && r in Next(s, step).requests && r !in s.requests
    ensures Next(s, step).requests[r].phase.Looking?
  {
    hide AccountToDomain, Prepare, CommandMoney, KeyUsed, Stored, CommitError, Committed, Applied;
  }

  lemma {:induction false} RunKeepsCaused(s: System, steps: seq<Step>)
    requires Inv(s) && AllCaused(s) && ValidFrom(s, steps)
    ensures AllCaused(RunFrom(s, steps))
    decreases |steps|
  {
    hide Inv, AllCaused, Next, Enabled;
    if steps != [] {
      StepKeepsCaused(s, steps[0]);
      StepKeepsInv(s, steps[0]);
      RunKeepsCaused(Next(s, steps[0]), steps[1..]);
    }
  }

  /**
    No answer without a cause: in every run a request that has an answer and committed
    nothing was told of a breakdown or a taken key, or it got the answer that running it
    alone, from its lookup or from its loading on, gives at some point of the commit order.
  */
  lemma AnswersHaveCauses(steps: seq<Step>, r: RequestId)
    requires ValidFrom(INITIAL, steps)
    requires var s := RunFrom(INITIAL, steps);
             r in s.requests && HasAnswer(s.requests[r].phase) && EntryOf(s.requests[r]).None?
    ensures var s := RunFrom(INITIAL, steps);
      Caused(s.ops, s.requests[r].cmd, s.requests[r].phase.response)
  {
    hide RunFrom, ValidFrom, Inv, Caused;
    InitialInv();
    RunKeepsCaused(INITIAL, steps);
    assert CausedAt(RunFrom(INITIAL, steps), r);
  }
}
