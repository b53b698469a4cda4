/** A run of operations in which a transfer fails after its debit. */
module ReplayExamples {
  import opened Prelude
  import opened Decimals
  import opened Domain
  import opened Mappers
  import opened TransferSpec
  import opened Books
  import opened Replay
  import opened PhantomDebits

  /** Two accounts, the second gets frozen, the first pays it one euro. */
  const PAY: Command := Command(0, 1, Finite(false, 1, 0), Some(EUR), "k")
  const TO_FROZEN: seq<Op> := [
    OpenOp(0, 0, "", EUR, Some(Money(250, EUR)), 0, 0), OpenOp(1, 0, "", EUR, None, 0, 0), StatusOp(1, Frozen, 0),
    TransferOp(PAY, 0, Stamps(0, 0, 0, 0, 0, 0))]

  const BEFORE_PAYING: Db := Db(map[0 := AccountRow(0, 0, "", 25000, EUR, Active, 0, 0),
                                    1 := AccountRow(1, 0, "", 0, EUR, Frozen, 0, 0)], map[], [])

  lemma ReplayToFrozen()
    ensures ReplayAll(TO_FROZEN[..0]) == EMPTY_DB
    ensures ReplayAll(TO_FROZEN[..1]).accounts.Keys == {0}
    ensures ReplayAll(TO_FROZEN[..3]) == BEFORE_PAYING
  {
    var one, two, three := TO_FROZEN[..1], TO_FROZEN[..2], TO_FROZEN[..3];
    assert one[..0] == [] && two[..1] == one && three[..2] == two;
    assert ReplayAll(one) == Db(map[0 := AccountRow(0, 0, "", 25000, EUR, Active, 0, 0)], map[], []);
    assert ReplayAll(two).accounts == ReplayAll(one).accounts[1 := AccountRow(1, 0, "", 0, EUR, Active, 0, 0)];
  }

  lemma OnlyCreditOfPayFails()
    ensures CommandMoney(PAY) == Ok(Money(100, EUR))
    ensures Admitted(BEFORE_PAYING, PAY) && OnlyCreditFails(BEFORE_PAYING, PAY)
  {
    assert Pow10(2) == 100 by {
      assert Pow10(1) == 10;
    }
    ColumnKeepsCents(Money(250, EUR));
    ColumnKeepsCents(Money(0, EUR));
  }

  /**
    What a failed credit leaves behind: no balance has changed, the outbox says that
    account 0 was debited by one euro, and its messages no longer add up to its balance.
  */
  lemma FailedCreditLeavesPhantom()
    ensures FreshIds(TO_FROZEN)
    ensures var db, openings := ReplayAll(TO_FROZEN), OpeningsOf(TO_FROZEN);
      && db.accounts == BEFORE_PAYING.accounts
      && db.outbox == [OfAccount(BalanceDebited(0, 0, 100, EUR, 150))]
      && 0 in openings && AllMove(db.outbox) && !AddsUp(db, openings, 0)
  {
    hide ReplayAll, Sequential, AddsUp, Admitted, CommandMoney, OpeningsOf, Tidy;
    ReplayToFrozen();
    OnlyCreditOfPayFails();
    PaysLast();
    FreshPrefix(TO_FROZEN, 3);
    TidyAfter(TO_FROZEN[..3]);
    LoadAll(BEFORE_PAYING, OpeningsOf(TO_FROZEN[..3]), PAY);
    SequentialMeans(BEFORE_PAYING, OpeningsOf(TO_FROZEN[..3]), PAY, 0, Stamps(0, 0, 0, 0, 0, 0));
    OutboxAddsUpIff(TO_FROZEN, 0);
    assert LeavesPhantom(ReplayAll(TO_FROZEN[..3]), TO_FROZEN[3], 0);
  }

  lemma PaysLast()
    ensures ReplayAll(TO_FROZEN) == Sequential(ReplayAll(TO_FROZEN[..3]), PAY, 0, Stamps(0, 0, 0, 0, 0, 0)).db
  {
  }
}
