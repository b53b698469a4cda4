/**
  The outbox without the restriction to completed transfers: exactly which requests
  make its messages disagree with the balances.
*/
module PhantomDebits {
  import opened Domain
  import opened Mappers
  import opened TransferSpec
  import opened Books
  import opened Replay
  import opened Protocol
  import opened ProtocolSafety

  /** Where in the outbox the debits of `a` are that never happened. */
  ghost function PhantomsAt(db: Db, a: AccountId): set<nat>
    requires AllMove(db.outbox)
  {
    set i: nat | i < |db.outbox| && IsPhantom(db.outbox[i], db.transactions, a)
  }

  ghost predicate HasPhantom(db: Db, a: AccountId)
    requires AllMove(db.outbox)
  {
    PhantomsAt(db, a) != {}
  }

  /** The request is from `a`, gets as far as being stored, and only its credit fails. */
  ghost predicate LeavesPhantom(db: Db, op: Op, a: AccountId) {
    op.TransferOp? && op.cmd.fromId == a && Admitted(db, op.cmd) && OnlyCreditFails(db, op.cmd)
  }

  /** Storing one more transaction makes nothing of the messages about the others. */
  lemma OldMessagesStay(db: Db, row: TransactionRow, t: TransactionId, a: AccountId, i: nat)
    requires OutboxTidy(db) && t !in db.transactions && i < |db.outbox|
    ensures IsPhantom(db.outbox[i], db.transactions[t := row], a) <==> IsPhantom(db.outbox[i], db.transactions, a)
  {
    hide About;
    assert db.outbox[i].account.transactionId in db.transactions;
  }

  /** A request appends one such debit if it leaves a phantom, and none otherwise; those there were stay. */
  lemma PhantomsOfTransfer(db: Db, openings: Openings, op: Op, a: AccountId)
    requires Tidy(db, openings) && OutboxTidy(db) && op.TransferOp? && op.txId !in db.transactions
    ensures AllMove(Applied(db, op).outbox)
    ensures PhantomsAt(Applied(db, op), a) == PhantomsAt(db, a) + if LeavesPhantom(db, op, a) then {|db.outbox|} else {}
  {
    hide Sequential, Tidy, OutboxTidy;
    var cmd, out := op.cmd, Sequential(db, op.cmd, op.txId, op.at).db;
    assert AllMove(db.outbox) by { TidyMoves(db); }
    SequentialMeans(db, openings, cmd, op.txId, op.at);
    if Admitted(db, cmd) {
      LoadAll(db, openings, cmd);
      if out != db {
        forall i | 0 <= i < |db.outbox|
          ensures IsPhantom(out.outbox[i], out.transactions, a) <==> IsPhantom(db.outbox[i], db.transactions, a)
        {
          OldMessagesStay(db, out.transactions[op.txId], op.txId, a, i);
        }
      }
    }
  }

  lemma TidyMoves(db: Db)
    requires OutboxTidy(db)
    ensures AllMove(db.outbox)
  {
  }

  /** A phantom comes with exactly the operations that leave one, and stays. */
  lemma PhantomsAfter(db: Db, openings: Openings, op: Op, a: AccountId)
    requires Tidy(db, openings) && OutboxTidy(db) && (op.TransferOp? ==> op.txId !in db.transactions)
    ensures AllMove(Applied(db, op).outbox)
    ensures HasPhantom(Applied(db, op), a) <==> HasPhantom(db, a) || LeavesPhantom(db, op, a)
  {
    if op.TransferOp? {
      PhantomsOfTransfer(db, openings, op, a);
    }
  }

  /** Some operation left a phantom of `a` when its turn came. */
  ghost predicate SomeLeftPhantom(ops: seq<Op>, a: AccountId) {
    exists i :: 0 <= i < |ops| && LeavesPhantom(ReplayAll(ops[..i]), ops[i], a)
  }

  lemma {:induction false} PhantomsOfRun(ops: seq<Op>, a: AccountId)
    requires FreshIds(ops)
    ensures AllMove(ReplayAll(ops).outbox)
    ensures HasPhantom(ReplayAll(ops), a) <==> SomeLeftPhantom(ops, a)
  {
    hide LeavesPhantom, HasPhantom, Applied, Tidy, OutboxTidy;
    if ops == [] {
      NoPhantomAtFirst(a);
    } else {
      var n := |ops| - 1;
      FreshPrefix(ops, n);
      PhantomsOfRun(ops[..n], a);
      TidyAfter(ops[..n]);
      PhantomsAfter(ReplayAll(ops[..n]), OpeningsOf(ops[..n]), ops[n], a);
      LastLeftPhantom(ops, n, a);
    }
  }

  lemma NoPhantomAtFirst(a: AccountId)
    ensures !HasPhantom(EMPTY_DB, a)
  {
  }

  lemma LastLeftPhantom(ops: seq<Op>, n: nat, a: AccountId)
    requires |ops| == n + 1
    ensures SomeLeftPhantom(ops, a) <==> SomeLeftPhantom(ops[..n], a) || LeavesPhantom(ReplayAll(ops[..n]), ops[n], a)
  {
    hide LeavesPhantom, ReplayAll;
    PrefixOfPrefix(ops, n);
    forall i | 0 <= i < n
      ensures LeavesPhantom(ReplayAll(ops[..n][..i]), ops[..n][i], a) <==> LeavesPhantom(ReplayAll(ops[..i]), ops[i], a)
    {
    }
  }

  /**
    After any operations in any order, all messages about an account add up to its
    balance exactly if none of the operations was a transfer from it that was admitted,
    with a sender who could pay and a receiver who could not receive.
  */
  lemma OutboxAddsUpIff(ops: seq<Op>, a: AccountId)
    requires FreshIds(ops) && a in ReplayAll(ops).accounts
    ensures AllMove(ReplayAll(ops).outbox) && a in OpeningsOf(ops)
    ensures AddsUp(ReplayAll(ops), OpeningsOf(ops), a)
        <==> forall i :: 0 <= i < |ops| ==> !LeavesPhantom(ReplayAll(ops[..i]), ops[i], a)
  {
    hide ReplayAll, OpeningsOf, FreshIds, LeavesPhantom, AddsUp, HasPhantom, IsPhantom, Tidy, OutboxTidy;
    PhantomsOfRun(ops, a);
    TidyAfter(ops);
    AgreesAfter(ops, a);
    UnfilteredOutboxAgreesIff(ReplayAll(ops), OpeningsOf(ops), a);
    NoPhantomMeans(ReplayAll(ops), a);
  }

  lemma AgreesAfter(ops: seq<Op>, a: AccountId)
    requires FreshIds(ops) && a in ReplayAll(ops).accounts
    ensures AllMove(ReplayAll(ops).outbox) && a in OpeningsOf(ops)
    ensures Agrees(ReplayAll(ops), OpeningsOf(ops), a)
  {
    hide ReplayAll, OpeningsOf, FreshIds;
    BooksStayInOrder(ops);
  }

  lemma NoPhantomMeans(db: Db, a: AccountId)
    requires AllMove(db.outbox)
    ensures !HasPhantom(db, a) <==> forall i :: 0 <= i < |db.outbox| ==> !IsPhantom(db.outbox[i], db.transactions, a)
  {
    if i: nat :| i < |db.outbox| && IsPhantom(db.outbox[i], db.transactions, a) {
      assert i in PhantomsAt(db, a);
    }
  }

  /** The same of the committed tables in every run of any number of requests. */
  lemma OutboxAddsUpInEveryRunIff(steps: seq<Step>, a: AccountId)
    requires ValidFrom(INITIAL, steps) && a in RunFrom(INITIAL, steps).db.accounts
    ensures var s := RunFrom(INITIAL, steps);
      && AllMove(s.db.outbox) && a in OpeningsOf(s.ops)
      && (AddsUp(s.db, OpeningsOf(s.ops), a)
          <==> forall i :: 0 <= i < |s.ops| ==> !LeavesPhantom(ReplayAll(s.ops[..i]), s.ops[i], a))
  {
    hide RunFrom, ValidFrom, ReplayAll, LeavesPhantom, AddsUp, OwnersOk, EntryAnswers, FreshIds;
    Serializable(steps);
    OutboxAddsUpIff(RunFrom(INITIAL, steps).ops, a);
  }
}
