/**
  Runs that show what does not hold: what the expiry of a lease under the request
  that has the key allows, and a request that loses a race for its idempotency key.
*/
module ProtocolExamples {
  import opened Prelude
  import opened Decimals
  import opened Domain
  import opened MoneyValues
  import opened Accounts
  import opened Mappers
  import opened TransferSpec
  import opened Replay
  import opened Protocol
  import opened ProtocolSafety
  import opened ProtocolIdempotency
  import opened ProtocolLocks

  lemma {:induction false} Extend(s: System, steps: seq<Step>, step: Step)
    requires ValidFrom(s, steps) && Enabled(RunFrom(s, steps), step)
    ensures ValidFrom(s, steps + [step]) && RunFrom(s, steps + [step]) == Next(RunFrom(s, steps), step)
    decreases |steps|
  {
    hide Next, Enabled;
    if steps == [] {
      assert (steps + [step])[1..] == [];
      assert ValidFrom(Next(s, step), []);
    } else {
      assert (steps + [step])[1..] == steps[1..] + [step];
      Extend(Next(s, steps[0]), steps[1..], step);
    }
  }

  /** One euro from one account to the other. */
  function OneEuro(fromId: AccountId, toId: AccountId, key: IdempotencyKey): Command {
    Command(fromId, toId, OfCents(100), Some(EUR), key)
  }

  function OpenWith(id: AccountId, cents: Cents): Op {
    OpenOp(id, 0, "", EUR, Some(Money(cents, EUR)), 0, 0)
  }

  lemma OneEuroIsMoney(fromId: AccountId, toId: AccountId, key: IdempotencyKey)
    ensures CommandMoney(OneEuro(fromId, toId, key)) == Ok(Money(100, EUR))
  {
    MakeMoneyOfCents(100, EUR);
  }

  /** Both accounts are open, nothing else has happened. */
  ghost predicate TwoAccounts(s: System) {
    && s.db.transactions == map[] && s.requests == map[] && s.rowLocks == map[] && s.redis == {}
    && s.drawn == {}
    && 1 in s.db.accounts && AccountToDomain(s.db.accounts[1]).Ok? && s.db.accounts[1].balance == 50000
    && 2 in s.db.accounts && AccountToDomain(s.db.accounts[2]).Ok? && s.db.accounts[2].balance == 50000
  }

  lemma OpenTwo() returns (steps: seq<Step>)
    ensures ValidFrom(INITIAL, steps) && TwoAccounts(RunFrom(INITIAL, steps))
    ensures forall i :: 0 <= i < |steps| ==> steps[i].Outside?
  {
    hide ValidFrom, RunFrom, AccountToDomain;
    var a, b := Outside(OpenWith(1, 500)), Outside(OpenWith(2, 500));
    RunNothing(INITIAL);
    Extend(INITIAL, [], a);
    var s1 := Next(INITIAL, a);
    assert [] + [a] == [a];
    Extend(INITIAL, [a], b);
    steps := [a] + [b];
    AccountRoundTrip(AccountState(1, 0, "", Money(500, EUR), Active, 0, 0, [AccountCreated(1, 0, EUR, 500)]));
    AccountRoundTrip(AccountState(2, 0, "", Money(500, EUR), Active, 0, 0, [AccountCreated(2, 0, EUR, 500)]));
  }

  lemma RunNothing(s: System)
    ensures ValidFrom(s, []) && RunFrom(s, []) == s
  {
  }

  /** Each request has its sender's row and wants the row the other one has. */
  ghost predicate RowDeadlock(s: System, r: RequestId, u: RequestId) {
    && r in s.requests && s.requests[r].phase.SenderLoaded? && !Enabled(s, LockReceiver(r))
    && u in s.requests && s.requests[u].phase.SenderLoaded? && !Enabled(s, LockReceiver(u))
    && s.requests[r].cmd.toId in s.rowLocks && s.rowLocks[s.requests[r].cmd.toId] == u
    && s.requests[u].cmd.toId in s.rowLocks && s.rowLocks[s.requests[u].cmd.toId] == r
  }

  // ----- Leases that expire too early -----------------------------------------------------

  lemma {:induction false} LongerThanAll(transactions: map<TransactionId, TransactionRow>) returns (key: IdempotencyKey)
    ensures forall t :: t in transactions ==> |transactions[t].key| < |key|
    decreases |transactions|
  {
    if |transactions| == 0 {
      key := "k";
    } else {
      var t: TransactionId :| t in transactions;
      var rest := transactions - {t};
      assert rest.Keys == transactions.Keys - {t};
      var more := LongerThanAll(rest);
      key := more + transactions[t].key + "k";
      forall u | u in transactions
        ensures |transactions[u].key| < |key|
      {
        assert u != t ==> u in rest && rest[u] == transactions[u];
      }
    }
  }

  /** Nothing but the given request and live keys differs. */
  ghost predicate Joined(s: System, s': System, u: RequestId, phase: Phase, cmd: Command, redis: set<AccountId>) {
    s' == s.(requests := s.requests[u := Request(cmd, phase)], redis := redis)
  }

  /** A request that arrives now, for a transfer from `k` to `m`, takes its two keys, both of them free. */
  lemma NewcomerEnters(s: System, k: AccountId, m: AccountId)
    returns (steps: seq<Step>, u: RequestId, key: IdempotencyKey)
    requires k !in s.redis && m !in s.redis && k != m
    ensures ValidFrom(s, steps) && forall i :: 0 <= i < |steps| ==> CleanStep(steps[i])
    ensures u !in s.requests
    ensures Joined(s, RunFrom(s, steps), u, Entered(Money(100, EUR)), OneEuro(k, m, key), s.redis + {k, m})
  {
    hide ValidFrom, RunFrom, CommandMoney;
    u := Above(s.requests.Keys);
    key := LongerThanAll(s.db.transactions);
    var cmd := OneEuro(k, m, key);
    OneEuroIsMoney(k, m, key);
    RunNothing(s);
    Extend(s, [], Arrive(u, cmd));
    steps := [] + [Arrive(u, cmd)];
    Extend(s, steps, Lookup(u));
    steps := steps + [Lookup(u)];
    assert Joined(s, RunFrom(s, steps), u, Acquiring(Money(100, EUR), 0), cmd, s.redis);
    Extend(s, steps, TakeKey(u));
    steps := steps + [TakeKey(u)];
    assert Joined(s, RunFrom(s, steps), u, Acquiring(Money(100, EUR), 1), cmd, s.redis + {LockKey(cmd, 0)});
    Extend(s, steps, TakeKey(u));
    steps := steps + [TakeKey(u)];
    assert s.redis + {LockKey(cmd, 0)} + {LockKey(cmd, 1)} == s.redis + {k, m};
  }

  /**
    The condition on leases is the right one: in any state at all in which a request is
    in the critical section, the expiry of the lease on one of its keys lets a second
    request in with the same account, by clean steps only.
  */
  lemma ExpiryBreaksExclusion(s: System, r: RequestId, k: AccountId) returns (steps: seq<Step>, u: RequestId)
    requires r in s.requests && InCriticalSection(s.requests[r]) && k in AccountsOf(s.requests[r].cmd)
    ensures !SparesLeases(s, Expire(k)) && Enabled(s, Expire(k))
    ensures ValidFrom(Next(s, Expire(k)), steps) && forall i :: 0 <= i < |steps| ==> CleanStep(steps[i])
    ensures var s' := RunFrom(Next(s, Expire(k)), steps);
      && r in s'.requests && u in s'.requests && r != u
      && InCriticalSection(s'.requests[r]) && InCriticalSection(s'.requests[u])
      && k in AccountsOf(s'.requests[r].cmd) && k in AccountsOf(s'.requests[u].cmd)
  {
    hide ValidFrom, RunFrom;
    CriticalHasKeys(s.requests[r], k);
    var m := Above(s.redis + {k});
    var key;
    steps, u, key := NewcomerEnters(s.(redis := s.redis - {k}), k, m);
  }

  // ----- Rows locked in the other order ---------------------------------------------------

  /** The state in which both leases of a request have expired. */
  ghost function BothExpired(s: System, cmd: Command): System {
    Next(Next(s, Expire(cmd.fromId)), Expire(cmd.toId))
  }

  /**
    The row locks are taken sender first, not in sorted order. So in any reachable state
    in which a request between two existing accounts has entered and has yet to lock its
    receiver's row - unlocked so far, as is its sender's unless it has that one - the
    expiry of its two leases lets an opposite transfer in, and the two can lock each
    other out, by clean steps only: each waits for the row the other has. (In runs in
    which leases last there is no such state: `ProtocolLocks.CriticalSectionsAreDisjoint`.)
  */
  lemma ExpiryAllowsRowDeadlock(s: System, r: RequestId) returns (steps: seq<Step>, u: RequestId)
    requires Inv(s) && r in s.requests && s.requests[r].cmd.fromId != s.requests[r].cmd.toId
    requires s.requests[r].cmd.fromId in s.db.accounts && s.requests[r].cmd.toId in s.db.accounts
    requires s.requests[r].cmd.toId !in s.rowLocks
    requires || s.requests[r].phase.SenderLoaded?
             || (s.requests[r].phase.Entered? && s.requests[r].cmd.fromId !in s.rowLocks)
    ensures ValidFrom(BothExpired(s, s.requests[r].cmd), steps) && forall i :: 0 <= i < |steps| ==> CleanStep(steps[i])
    ensures RowDeadlock(RunFrom(BothExpired(s, s.requests[r].cmd), steps), r, u)
  {
    hide ValidFrom, RunFrom, AccountToDomain, Inv;
    var cmd := s.requests[r].cmd;
    var s0 := BothExpired(s, cmd);
    RowsLoad(s, cmd);
    if s.requests[r].phase.SenderLoaded? {
      HoldsSender(s, r);
    }
    var key;
    steps, u, key := NewcomerEnters(s0, cmd.toId, cmd.fromId);
    if s.requests[r].phase.Entered? {
      Extend(s0, steps, LockSender(r));
      steps := steps + [LockSender(r)];
    }
    Extend(s0, steps, LockSender(u));
    steps := steps + [LockSender(u)];
  }

  lemma RowsLoad(s: System, cmd: Command)
    requires Inv(s) && cmd.fromId in s.db.accounts && cmd.toId in s.db.accounts
    ensures AccountToDomain(s.db.accounts[cmd.fromId]).Ok? && AccountToDomain(s.db.accounts[cmd.toId]).Ok?
  {
    InvFiled(s);
    LoadAll(s.db, OpeningsOf(s.ops), cmd);
  }

  lemma HoldsSender(s: System, r: RequestId)
    requires Inv(s) && r in s.requests && s.requests[r].phase.SenderLoaded?
    ensures s.requests[r].cmd.fromId in s.rowLocks && s.rowLocks[s.requests[r].cmd.fromId] == r
  {
    hide Serial, IdsOk, OwnersOk, LocksOk;
    assert LocalOk(s, r);
  }

  lemma {:induction false} RunConcat(s: System, steps: seq<Step>, more: seq<Step>)
    requires ValidFrom(s, steps) && ValidFrom(RunFrom(s, steps), more)
    ensures ValidFrom(s, steps + more) && RunFrom(s, steps + more) == RunFrom(RunFrom(s, steps), more)
    decreases |steps|
  {
    hide Next, Enabled;
    if steps == [] {
      assert steps + more == more;
    } else {
      assert (steps + more)[1..] == steps[1..] + more;
      RunConcat(Next(s, steps[0]), steps[1..], more);
    }
  }

  /** Such states are reachable: a run from the beginning that ends in a deadlock at the rows. */
  lemma ExpiredLeasesAllowRowDeadlock() returns (steps: seq<Step>, r: RequestId, u: RequestId)
    ensures ValidFrom(INITIAL, steps) && RowDeadlock(RunFrom(INITIAL, steps), r, u)
  {
    hide ValidFrom, RunFrom, RowDeadlock;
    steps := OpenTwo();
    var key;
    var start := RunFrom(INITIAL, steps);
    var more;
    more, r, key := NewcomerEnters(start, 1, 2);
    RunConcat(INITIAL, steps, more);
    steps := steps + more;
    InitialInv();
    RunKeepsInv(INITIAL, steps);
    var s := RunFrom(INITIAL, steps);
    Extend(INITIAL, steps, Expire(1));
    steps := steps + [Expire(1)];
    Extend(INITIAL, steps, Expire(2));
    steps := steps + [Expire(2)];
    more, u := ExpiryAllowsRowDeadlock(s, r);
    RunConcat(INITIAL, steps, more);
    steps := steps + more;
  }

  // ----- A race for a key --------------------------------------------------------------------

  /** Both requests have looked up the same key and found nothing; the first has both rows. */
  ghost predicate Racing(s: System, cmd: Command) {
    && 1 in s.db.accounts && 2 in s.db.accounts && s.db.accounts[2].balance == 50000
    && s.db.transactions == map[] && s.drawn == {}
    && AccountToDomain(s.db.accounts[1]).Ok? && AccountToDomain(s.db.accounts[2]).Ok?
    && s.requests == map[0 := Request(cmd, BothLoaded(Money(100, EUR), AccountToDomain(s.db.accounts[1]).value,
                                                      AccountToDomain(s.db.accounts[2]).value)),
                         1 := Request(cmd, Acquiring(Money(100, EUR), 0))]
  }

  lemma RaceForKey(steps: seq<Step>, cmd: Command) returns (longer: seq<Step>)
    requires ValidFrom(INITIAL, steps) && TwoAccounts(RunFrom(INITIAL, steps)) && cmd == OneEuro(1, 2, "a")
    ensures ValidFrom(INITIAL, longer) && Racing(RunFrom(INITIAL, longer), cmd)
  {
    hide ValidFrom, RunFrom, AccountToDomain, CommandMoney;
    OneEuroIsMoney(1, 2, "a");
    longer := steps;
    Extend(INITIAL, longer, Arrive(0, cmd));
    longer := longer + [Arrive(0, cmd)];
    Extend(INITIAL, longer, Arrive(1, cmd));
    longer := longer + [Arrive(1, cmd)];
    Extend(INITIAL, longer, Lookup(0));
    longer := longer + [Lookup(0)];
    Extend(INITIAL, longer, Lookup(1));
    longer := longer + [Lookup(1)];
    longer := WinnerLoads(longer, cmd);
  }

  lemma WinnerLoads(steps: seq<Step>, cmd: Command) returns (longer: seq<Step>)
    requires ValidFrom(INITIAL, steps) && cmd == OneEuro(1, 2, "a")
    requires var s := RunFrom(INITIAL, steps);
      && 1 in s.db.accounts && AccountToDomain(s.db.accounts[1]).Ok?
      && 2 in s.db.accounts && AccountToDomain(s.db.accounts[2]).Ok? && s.db.accounts[2].balance == 50000
      && s.db.transactions == map[] && s.drawn == {} && s.redis == {} && s.rowLocks == map[]
      && s.requests == map[0 := Request(cmd, Acquiring(Money(100, EUR), 0)),
                           1 := Request(cmd, Acquiring(Money(100, EUR), 0))]
    ensures ValidFrom(INITIAL, longer) && Racing(RunFrom(INITIAL, longer), cmd)
  {
    hide ValidFrom, RunFrom, AccountToDomain;
    longer := steps;
    Extend(INITIAL, longer, TakeKey(0));
    longer := longer + [TakeKey(0)];
    Extend(INITIAL, longer, TakeKey(0));
    longer := longer + [TakeKey(0)];
    Extend(INITIAL, longer, LockSender(0));
    longer := longer + [LockSender(0)];
    Extend(INITIAL, longer, LockReceiver(0));
    longer := longer + [LockReceiver(0)];
  }

  /** What the winner has prepared is taken by the database. */
  lemma WinnerPrepares(s: System, cmd: Command, at: Stamps) returns (work: Work)
    requires Inv(s) && Racing(s, cmd) && cmd == OneEuro(1, 2, "a")
    ensures Enabled(s, Execute(0, 0, at))
    ensures Executed(s, 0, 0, at) == At(s, 0, Prepared(work, at)).(drawn := {0})
    ensures work.tx.id == 0 && work.tx.key == cmd.key && work.sender.id == 1 && work.receiver.id == 2
    ensures CommitError(s.db, work).None?
  {
    hide MoveMoney, AccountToDomain, CommitError, CommandMoney;
    OneEuroIsMoney(1, 2, "a");
    InvFiled(s);
    LoadAll(s.db, OpeningsOf(s.ops), cmd);
    PreparedMeans(s.db, OpeningsOf(s.ops), cmd, 0, at);
    var sender, receiver := AccountToDomain(s.db.accounts[1]).value, AccountToDomain(s.db.accounts[2]).value;
    work := Prepare(cmd, Money(100, EUR), sender, receiver, 0, at).value;
    PrepareKeeps(cmd, Money(100, EUR), sender, receiver, 0, at);
  }

  /**
    Losing the race for a key is possible: a reachable state in which a request is past
    its lookup and another has just committed under the same key. By
    `ProtocolIdempotency.LosersAlwaysFail` it can only end in an exception.
  */
  lemma RequestsCanLose() returns (steps: seq<Step>)
    ensures ValidFrom(INITIAL, steps) && Loser(RunFrom(INITIAL, steps), 1)
  {
    hide ValidFrom, RunFrom, Prepare, CommitError, CommandMoney, Inv;
    var cmd, at := OneEuro(1, 2, "a"), Stamps(0, 0, 0, 0, 0, 0);
    steps := OpenTwo();
    steps := RaceForKey(steps, cmd);
    InitialInv();
    RunKeepsInv(INITIAL, steps);
    var s := RunFrom(INITIAL, steps);
    var work := WinnerPrepares(s, cmd, at);
    Extend(INITIAL, steps, Execute(0, 0, at));
    steps := steps + [Execute(0, 0, at)];
    var s' := RunFrom(INITIAL, steps);
    Extend(INITIAL, steps, Commit(0));
    steps := steps + [Commit(0)];
    CommitWrites(s', 0);
    assert RunFrom(INITIAL, steps).db.transactions[0].key == cmd.key;
  }
}
