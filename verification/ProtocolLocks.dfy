/**
  What the Redis keys add. As long as no lease expires under the request that has the
  key, requests in the critical section have disjoint accounts and no one ever waits
  for a row lock, even if keys linger and releases get lost. Waiting for keys never
  closes a circle in any run at all. In runs in which nothing keeps a key alive but
  the request that has it, some request can always move on.
*/
module ProtocolLocks {
  import opened Prelude
  import opened Domain
  import opened Sums
  import opened Mappers
  import opened TransferSpec
  import opened Replay
  import opened Protocol
  import opened ProtocolSafety

  /** The keys a request has taken and not tried to delete yet. */
  predicate HasKey(req: Request, k: AccountId) {
    || (KeysTaken(req.phase) >= 1 && k == LockKey(req.cmd, 0))
    || (KeysTaken(req.phase) >= 2 && k == LockKey(req.cmd, 1))
  }

  predicate KeysWellTaken(req: Request) {
    && KeysTaken(req.phase) <= 2
    && (req.phase.Acquiring? ==> req.phase.got <= 1)
    && (KeysTaken(req.phase) == 2 ==> req.cmd.fromId != req.cmd.toId)
  }

  /** Every key that a request has is live, no two requests share one, and no request has one twice. */
  ghost predicate Held(s: System) {
    && (forall r, k :: r in s.requests && HasKey(s.requests[r], k) ==> k in s.redis)
    && (forall r, u, k :: r in s.requests && u in s.requests && HasKey(s.requests[r], k) && HasKey(s.requests[u], k) ==>
          r == u)
    && (forall r :: r in s.requests ==> KeysWellTaken(s.requests[r]))
  }

  /** The step is not the expiry of a lease on a key that some request has. */
  ghost predicate SparesLeases(s: System, step: Step) {
    step.Expire? ==> forall r :: r in s.requests ==> !HasKey(s.requests[r], step.key)
  }

  /** No lease expires under the request that has the key. Other keys may expire or linger, releases may get lost. */
  ghost predicate LeasesLast(s: System, steps: seq<Step>)
    requires ValidFrom(s, steps)
    decreases |steps|
  {
    steps == [] || (SparesLeases(s, steps[0]) && LeasesLast(Next(s, steps[0]), steps[1..]))
  }

  /** How many keys a step of a request's own leaves it with. */
  function KeysLeft(taken: nat, step: Step): int {
    if step.TakeKey? then taken + 1 else if step.Release? || step.LoseRelease? then taken - 1 else taken
  }

  lemma WorkingKeepsKeys(s: System, step: Step)
    requires Enabled(s, step) && WorkingStep(step)
    ensures step.r in s.requests && step.r in Next(s, step).requests
    ensures KeysTaken(Next(s, step).requests[step.r].phase) == KeysTaken(s.requests[step.r].phase) == 2
    ensures !Next(s, step).requests[step.r].phase.Acquiring?
  {
    hide AccountToDomain, Prepare, CommandMoney, CommitError, Committed;
  }

  lemma OtherKeysAfter(s: System, step: Step)
    requires Enabled(s, step) && Actor(step).Some? && !step.Arrive? && !WorkingStep(step)
    requires step.r in s.requests && KeysTaken(s.requests[step.r].phase) <= 2
    requires s.requests[step.r].phase.Acquiring? ==> s.requests[step.r].phase.got <= 1
    ensures step.r in Next(s, step).requests
    ensures KeysTaken(Next(s, step).requests[step.r].phase) == KeysLeft(KeysTaken(s.requests[step.r].phase), step)
    ensures Next(s, step).requests[step.r].phase.Acquiring? ==> Next(s, step).requests[step.r].phase.got <= 1
  {
    hide CommandMoney, KeyUsed, Stored;
  }

  /** The request of `r` after a step, as far as keys are concerned. */
  lemma KeysAfter(s: System, step: Step, r: RequestId)
    requires Enabled(s, step) && r in Next(s, step).requests
    requires r in s.requests ==> KeysWellTaken(s.requests[r])
    ensures r in s.requests ==> Next(s, step).requests[r].cmd == s.requests[r].cmd
    ensures KeysTaken(Next(s, step).requests[r].phase)
         == if r !in s.requests then 0
            else if Actor(step) != Some(r) then KeysTaken(s.requests[r].phase)
            else KeysLeft(KeysTaken(s.requests[r].phase), step)
    ensures Next(s, step).requests[r].phase.Acquiring? ==> Next(s, step).requests[r].phase.got <= 1
  {
    RequestsAfter(s, step);
    if step.Arrive? && step.r == r {
      assert Next(s, step).requests[r].phase.Looking?;
    }
    hide Next;
    if r in s.requests && Actor(step) == Some(r) && !step.Arrive? {
      if WorkingStep(step) {
        WorkingKeepsKeys(s, step);
      } else {
        OtherKeysAfter(s, step);
      }
    }
  }

  /** What a step makes of the live keys. */
  lemma RedisAfter(s: System, step: Step)
    requires Enabled(s, step)
    ensures Next(s, step).redis ==
            if step.TakeKey? then s.redis + {LockKey(s.requests[step.r].cmd, s.requests[step.r].phase.got)}
            else if step.Release? then s.redis - {LockKey(s.requests[step.r].cmd, s.requests[step.r].phase.left - 1)}
            else if step.Expire? then s.redis - {step.key}
            else if step.Linger? then s.redis + {step.key}
            else s.redis
    ensures step.TakeKey? ==> LockKey(s.requests[step.r].cmd, s.requests[step.r].phase.got) !in s.redis
  {
    hide AccountToDomain, Prepare, CommandMoney, KeyUsed, Stored, CommitError, Committed, Applied;
  }

  /** Only taking a key and trying to delete it change who has which. */
  lemma HasKeyAfter(s: System, step: Step, r: RequestId, k: AccountId)
    requires Held(s) && Enabled(s, step) && r in Next(s, step).requests
    ensures HasKey(Next(s, step).requests[r], k) <==>
            if r !in s.requests then false
            else if step.TakeKey? && step.r == r
              then HasKey(s.requests[r], k) || k == LockKey(s.requests[r].cmd, s.requests[r].phase.got)
            else if (step.Release? || step.LoseRelease?) && step.r == r
              then HasKey(s.requests[r], k) && k != LockKey(s.requests[r].cmd, s.requests[r].phase.left - 1)
            else HasKey(s.requests[r], k)
  {
    hide Next;
    if r in s.requests {
      assert KeysWellTaken(s.requests[r]);
    }
    KeysAfter(s, step, r);
  }

  lemma StepKeepsHeld(s: System, step: Step)
    requires Held(s) && Enabled(s, step) && SparesLeases(s, step)
    ensures Held(Next(s, step))
  {
    hide Next;
    var s' := Next(s, step);
    RedisAfter(s, step);
    forall r, k | r in s'.requests && HasKey(s'.requests[r], k)
      ensures k in s'.redis
    {
      HasKeyAfter(s, step, r, k);
      if step.Release? && step.r != r {
        assert HasKey(s.requests[step.r], LockKey(s.requests[step.r].cmd, s.requests[step.r].phase.left - 1));
      }
    }
    forall r, u, k | r in s'.requests && u in s'.requests && HasKey(s'.requests[r], k) && HasKey(s'.requests[u], k)
      ensures r == u
    {
      HasKeyAfter(s, step, r, k);
      HasKeyAfter(s, step, u, k);
    }
    forall r | r in s'.requests
      ensures KeysWellTaken(s'.requests[r])
    {
      StepKeepsWellTaken(s, step, r);
    }
  }

  lemma StepKeepsWellTaken(s: System, step: Step, r: RequestId)
    requires Held(s) && Enabled(s, step) && r in Next(s, step).requests
    ensures KeysWellTaken(Next(s, step).requests[r])
  {
    hide Next;
    if r in s.requests {
      assert KeysWellTaken(s.requests[r]);
      if step.TakeKey? && step.r == r && s.requests[r].cmd.fromId == s.requests[r].cmd.toId {
        RedisAfter(s, step);
        assert s.requests[r].phase.got == 1 ==> HasKey(s.requests[r], LockKey(s.requests[r].cmd, 0));
      }
    }
    KeysAfter(s, step, r);
  }

  lemma InitialHeld()
    ensures Held(INITIAL)
  {
  }

  lemma {:induction false} RunKeepsHeld(s: System, steps: seq<Step>)
    requires Inv(s) && Held(s) && ValidFrom(s, steps) && LeasesLast(s, steps)
    ensures Inv(RunFrom(s, steps)) && Held(RunFrom(s, steps))
    decreases |steps|
  {
    hide Inv, Held, Next, Enabled, SparesLeases;
    if steps != [] {
      StepKeepsHeld(s, steps[0]);
      StepKeepsInv(s, steps[0]);
      RunKeepsHeld(Next(s, steps[0]), steps[1..]);
    }
  }

  // ----- Layering ------------------------------------------------------------------------

  /** Between taking the second key and leaving the unit of work. */
  predicate InCriticalSection(req: Request) {
    req.phase.Entered? || req.phase.SenderLoaded? || req.phase.BothLoaded? || req.phase.Prepared?
  }

  function AccountsOf(cmd: Command): set<AccountId> {
    {cmd.fromId, cmd.toId}
  }

  lemma CriticalHasKeys(req: Request, a: AccountId)
    requires InCriticalSection(req) && a in AccountsOf(req.cmd)
    ensures HasKey(req, a)
  {
  }

  /**
    Lock layering: in every run in which no lease expires under the request that has
    the key, two requests in the critical section have no account in common, so no
    request ever finds the row it wants locked by another.
  */
  lemma CriticalSectionsAreDisjoint(steps: seq<Step>, r: RequestId, u: RequestId)
    requires ValidFrom(INITIAL, steps) && LeasesLast(INITIAL, steps)
    requires var s := RunFrom(INITIAL, steps);
             r in s.requests && u in s.requests && r != u && InCriticalSection(s.requests[r])
    ensures var s := RunFrom(INITIAL, steps);
      && (InCriticalSection(s.requests[u]) ==> AccountsOf(s.requests[r].cmd) !! AccountsOf(s.requests[u].cmd))
      && (forall a :: a in AccountsOf(s.requests[r].cmd) ==> RowFree(s, a, r))
  {
    hide RunFrom, ValidFrom, LeasesLast, Inv, Held;
    InitialInv();
    InitialHeld();
    RunKeepsHeld(INITIAL, steps);
    Layered(RunFrom(INITIAL, steps), r, u);
  }

  /**
    In such runs a transfer to the same account never has two keys: it conflicts with its
    own first one and does not get as far as the aggregate's own refusal.
  */
  lemma SelfTransferNeverEnters(steps: seq<Step>, r: RequestId)
    requires ValidFrom(INITIAL, steps) && LeasesLast(INITIAL, steps)
    requires var s := RunFrom(INITIAL, steps);
             r in s.requests && s.requests[r].cmd.fromId == s.requests[r].cmd.toId
    ensures var req := RunFrom(INITIAL, steps).requests[r];
      KeysTaken(req.phase) <= 1 && !InCriticalSection(req)
  {
    hide RunFrom, ValidFrom, LeasesLast, Inv;
    InitialInv();
    InitialHeld();
    RunKeepsHeld(INITIAL, steps);
    assert KeysWellTaken(RunFrom(INITIAL, steps).requests[r]);
  }

  lemma Layered(s: System, r: RequestId, u: RequestId)
    requires Inv(s) && Held(s) && r in s.requests && InCriticalSection(s.requests[r])
    ensures u in s.requests && u != r && InCriticalSection(s.requests[u]) ==>
              AccountsOf(s.requests[r].cmd) !! AccountsOf(s.requests[u].cmd)
    ensures forall a :: a in AccountsOf(s.requests[r].cmd) ==> RowFree(s, a, r)
  {
    hide LocalOk, IdsOk, OwnersOk, Serial, HasKey;
    forall a | a in AccountsOf(s.requests[r].cmd)
      ensures RowFree(s, a, r)
    {
      CriticalHasKeys(s.requests[r], a);
      if a in s.rowLocks {
        CriticalHasKeys(s.requests[s.rowLocks[a]], a);
      }
    }
    if u in s.requests && InCriticalSection(s.requests[u]) {
      forall a | a in AccountsOf(s.requests[r].cmd) && a in AccountsOf(s.requests[u].cmd)
        ensures u == r
      {
        CriticalHasKeys(s.requests[r], a);
        CriticalHasKeys(s.requests[u], a);
      }
    }
  }

  // ----- Waiting -------------------------------------------------------------------------

  /** The key a request that is acquiring wants next. */
  function Wanted(req: Request): AccountId
    requires req.phase.Acquiring?
  {
    LockKey(req.cmd, req.phase.got)
  }

  /** `r` waits for a key that `u` has. */
  ghost predicate WaitsFor(s: System, r: RequestId, u: RequestId) {
    && r in s.requests && u in s.requests
    && s.requests[r].phase.Acquiring? && HasKey(s.requests[u], Wanted(s.requests[r]))
  }

  /** A waiter between distinct accounts wants a key greater than every key it has, in every reachable state. */
  lemma WaitersWantMore(s: System, r: RequestId, k: AccountId)
    requires Inv(s) && r in s.requests && s.requests[r].phase.Acquiring? && HasKey(s.requests[r], k)
    requires s.requests[r].cmd.fromId != s.requests[r].cmd.toId
    ensures k < Wanted(s.requests[r])
  {
    hide Serial, IdsOk, OwnersOk, LocksOk;
    assert LocalOk(s, r);
  }

  /** All members wait for a key, between distinct accounts, and each but the last waits for the next. */
  ghost predicate WaitingChain(s: System, chain: seq<RequestId>) {
    && |chain| > 0
    && (forall i :: 0 <= i < |chain| - 1 ==> WaitsFor(s, chain[i], chain[i + 1]))
    && (forall i :: 0 <= i < |chain| ==> Waiter(s, chain[i]))
  }

  ghost predicate Waiter(s: System, r: RequestId) {
    r in s.requests && s.requests[r].phase.Acquiring? && s.requests[r].cmd.fromId != s.requests[r].cmd.toId
  }

  lemma {:induction false} ChainClimbs(s: System, chain: seq<RequestId>)
    requires Inv(s) && WaitingChain(s, chain)
    ensures |chain| > 1 ==> Wanted(s.requests[chain[0]]) < Wanted(s.requests[chain[|chain| - 1]])
  {
    hide Inv;
    assert Waiter(s, chain[0]);
    if |chain| > 1 {
      var rest := chain[1..];
      assert WaitingChain(s, rest) by {
        forall i | 0 <= i < |rest| - 1
          ensures WaitsFor(s, rest[i], rest[i + 1])
        {
          assert WaitsFor(s, chain[i + 1], chain[i + 2]);
        }
      }
      assert WaitsFor(s, chain[0], chain[1]) && Waiter(s, chain[1]);
      WaitersWantMore(s, chain[1], Wanted(s.requests[chain[0]]));
      ChainClimbs(s, rest);
    }
  }

  /**
    No circular wait, in any run, whatever expires, lingers or gets lost: no chain of
    two or more waiters comes back to where it started.
  */
  lemma NoCircularWait(steps: seq<Step>, chain: seq<RequestId>)
    requires ValidFrom(INITIAL, steps) && |chain| > 1 && WaitingChain(RunFrom(INITIAL, steps), chain)
    ensures chain[0] != chain[|chain| - 1]
  {
    hide RunFrom, ValidFrom, Inv;
    InitialInv();
    RunKeepsInv(INITIAL, steps);
    ChainClimbs(RunFrom(INITIAL, steps), chain);
  }

  // ----- Keys that only their holders keep alive ---------------------------------------------

  /** Every live key is one that some request has: nothing lingers now, whatever has lingered before. */
  ghost predicate NothingLingers(s: System) {
    forall k :: k in s.redis ==> exists r :: r in s.requests && HasKey(s.requests[r], k)
  }

  predicate CleanStep(step: Step) {
    !step.Expire? && !step.Linger? && !step.LoseRelease?
  }

  ghost predicate CleanRun(steps: seq<Step>) {
    forall i :: 0 <= i < |steps| ==> CleanStep(steps[i])
  }

  /** A key is live exactly if a request has it. */
  ghost predicate KeysOk(s: System) {
    Held(s) && NothingLingers(s)
  }

  lemma InitialKeysOk()
    ensures KeysOk(INITIAL)
  {
  }

  lemma StepKeepsKeysOk(s: System, step: Step)
    requires KeysOk(s) && Enabled(s, step) && CleanStep(step)
    ensures KeysOk(Next(s, step))
  {
    hide Next, HasKey;
    var s' := Next(s, step);
    StepKeepsHeld(s, step);
    RedisAfter(s, step);
    forall k | k in s'.redis
      ensures exists r :: r in s'.requests && HasKey(s'.requests[r], k)
    {
      var r :| if k in s.redis then r in s.requests && HasKey(s.requests[r], k) else r == step.r;
      RequestsStay(s, step);
      HasKeyAfter(s, step, r, k);
    }
  }

  /** Clean runs are such runs: their leases last, and nothing lingers. */
  lemma {:induction false} CleanRunKeepsKeysOk(s: System, steps: seq<Step>)
    requires KeysOk(s) && ValidFrom(s, steps) && CleanRun(steps)
    ensures LeasesLast(s, steps) && KeysOk(RunFrom(s, steps))
    decreases |steps|
  {
    hide KeysOk, Next, Enabled;
    if steps != [] {
      assert CleanStep(steps[0]);
      assert CleanRun(steps[1..]);
      StepKeepsKeysOk(s, steps[0]);
      CleanRunKeepsKeysOk(Next(s, steps[0]), steps[1..]);
    }
  }

  predicate BetweenDistinct(s: System) {
    forall r :: r in s.requests && !s.requests[r].phase.Finished? ==> s.requests[r].cmd.fromId != s.requests[r].cmd.toId
  }

  // ----- Progress ------------------------------------------------------------------------

  /** A step of a request's own that is neither a timeout nor an interruption. */
  predicate Proper(step: Step) {
    step.Lookup? || step.TakeKey? || step.LockSender? || step.LockReceiver? || step.Execute? || step.Commit?
    || step.Release? || step.Answer?
  }

  /** How many steps a request has ahead of it, at most. */
  function Rank(p: Phase): nat {
    match p
    case Looking => 10
    case Acquiring(_, got) => if got == 0 then 9 else 8
    case Entered(_) => 7
    case SenderLoaded(_, _) => 6
    case BothLoaded(_, _, _) => 5
    case Prepared(_, _) => 4
    case Releasing(left, _, _, _) => if left >= 2 then 3 else left + 1
    case Finished(_, _) => 0
  }

  function RankOf(): Request -> int {
    (req: Request) => Rank(req.phase)
  }

  /** Every step of a request's own brings it nearer to its end. */
  lemma StepLowersRank(s: System, step: Step)
    requires Inv(s) && Enabled(s, step) && Actor(step).Some? && !step.Arrive?
    ensures step.r in s.requests && step.r in Next(s, step).requests
    ensures Rank(Next(s, step).requests[step.r].phase) < Rank(s.requests[step.r].phase)
    ensures Next(s, step).requests == s.requests[step.r := Next(s, step).requests[step.r]]
    ensures Next(s, step).requests[step.r].cmd == s.requests[step.r].cmd
  {
    hide Next, Enabled, Rank, Serial, IdsOk, OwnersOk, LocksOk, EntryAnswers, EntryPublishes, HoldsCopy,
         PreparedFromRows;
    RequestsAfter(s, step);
    assert LocalOk(s, step.r);
    if WorkingStep(step) {
      WorkingLowersRank(s, step);
    } else {
      OtherLowersRank(s, step);
    }
  }

  lemma WorkingLowersRank(s: System, step: Step)
    requires Enabled(s, step) && WorkingStep(step)
    ensures step.r in s.requests && step.r in Next(s, step).requests
    ensures Rank(Next(s, step).requests[step.r].phase) < Rank(s.requests[step.r].phase)
  {
    hide AccountToDomain, Prepare, CommandMoney, CommitError, Committed;
  }

  lemma OtherLowersRank(s: System, step: Step)
    requires Enabled(s, step) && Actor(step).Some? && !step.Arrive? && !WorkingStep(step)
    requires step.r in s.requests
    requires s.requests[step.r].phase.Acquiring? ==> s.requests[step.r].phase.got <= 1
    requires s.requests[step.r].phase.Releasing? ==> s.requests[step.r].phase.left <= 2
    ensures step.r in Next(s, step).requests
    ensures Rank(Next(s, step).requests[step.r].phase) < Rank(s.requests[step.r].phase)
  {
    hide CommandMoney, KeyUsed, Stored;
  }

  lemma {:induction false} Above(ids: set<nat>) returns (b: nat)
    ensures forall i :: i in ids ==> i < b
    decreases |ids|
  {
    if ids == {} {
      b := 0;
    } else {
      var i :| i in ids;
      b := Above(ids - {i});
      b := if i < b then b else i + 1;
      assert forall j :: j in ids && j != i ==> j in ids - {i};
    }
  }

  ghost predicate Unfinished(s: System, r: RequestId) {
    r in s.requests && !s.requests[r].phase.Finished?
  }

  /** A request that is not waiting for a key can take its next step. */
  lemma OwnStep(s: System, r: RequestId) returns (step: Step)
    requires Inv(s) && KeysOk(s) && Unfinished(s, r) && !s.requests[r].phase.Acquiring?
    ensures Enabled(s, step) && Proper(step)
  {
    hide Serial, IdsOk, OwnersOk, Held, LocalOk, LocksOk;
    match s.requests[r].phase {
      case Looking => step := Lookup(r);
      case Entered(_) =>
        Layered(s, r, r);
        step := LockSender(r);
      case SenderLoaded(_, _) =>
        Layered(s, r, r);
        step := LockReceiver(r);
      case BothLoaded(_, _, _) =>
        var id := Above(s.drawn);
        step := Execute(r, id, Stamps(0, 0, 0, 0, 0, 0));
      case Prepared(_, _) =>
        step := Commit(r);
        CommitIsEnabled(s, r);
      case Releasing(left, _, _, _) => step := if left > 0 then Release(r) else Answer(r);
    }
  }

  lemma CommitIsEnabled(s: System, r: RequestId)
    requires Inv(s) && r in s.requests && s.requests[r].phase.Prepared?
    ensures Enabled(s, Commit(r))
  {
    hide Serial, IdsOk, OwnersOk, Prepare, AccountToDomain, CommandMoney;
    InvFiled(s);
    assert LocalOk(s, r);
    OwnRows(s, r);
  }

  function Gap(b: nat, w: nat): nat {
    if w < b then b - w else 0
  }

  /** Going from a waiter to the holder of its key, and on, ends at a request that can move. */
  lemma {:induction false} ClimbToStep(s: System, r: RequestId, b: nat) returns (step: Step)
    requires Inv(s) && KeysOk(s) && BetweenDistinct(s) && Unfinished(s, r) && forall k :: k in s.redis ==> k < b
    ensures Enabled(s, step) && Proper(step)
    decreases if s.requests[r].phase.Acquiring? then 1 + Gap(b, Wanted(s.requests[r])) else 0
  {
    hide Inv;
    if !s.requests[r].phase.Acquiring? {
      step := OwnStep(s, r);
    } else if Wanted(s.requests[r]) !in s.redis {
      step := TakeKey(r);
    } else {
      var u :| u in s.requests && HasKey(s.requests[u], Wanted(s.requests[r]));
      if s.requests[u].phase.Acquiring? {
        WaitersWantMore(s, u, Wanted(s.requests[r]));
      }
      step := ClimbToStep(s, u, b);
    }
  }

  /**
    Deadlock freedom: take any run in which no lease expires under the request that has
    the key, and in whose last state nothing lingers - releases may have got lost and
    keys lingered on the way. If the requests in flight are between distinct accounts and
    one of them is unfinished, some request can take a step of its own that is neither a
    timeout nor an interruption.
  */
  lemma NoDeadlock(steps: seq<Step>, r: RequestId) returns (step: Step)
    requires ValidFrom(INITIAL, steps) && LeasesLast(INITIAL, steps)
    requires NothingLingers(RunFrom(INITIAL, steps)) && BetweenDistinct(RunFrom(INITIAL, steps))
    requires Unfinished(RunFrom(INITIAL, steps), r)
    ensures Enabled(RunFrom(INITIAL, steps), step) && Proper(step)
  {
    hide RunFrom, ValidFrom, LeasesLast, Inv, Held, NothingLingers, BetweenDistinct;
    InitialInv();
    InitialHeld();
    RunKeepsHeld(INITIAL, steps);
    var b := Above(RunFrom(INITIAL, steps).redis);
    step := ClimbToStep(RunFrom(INITIAL, steps), r, b);
  }

  lemma {:induction false} RanksAreNatural(requests: map<RequestId, Request>)
    ensures Sum(requests, RankOf()) >= 0
    decreases |requests|
  {
    if |requests| != 0 {
      RanksAreNatural(Without(requests, Pick(requests)));
    }
  }

  ghost predicate AllProper(steps: seq<Step>) {
    forall i :: 0 <= i < |steps| ==> Proper(steps[i])
  }

  /**
    From such a state every request can be brought to its end without any timeout: there
    is a schedule of proper steps after which all are finished.
  */
  lemma {:induction false} AllCanFinish(s: System) returns (steps: seq<Step>)
    requires Inv(s) && KeysOk(s) && BetweenDistinct(s)
    ensures ValidFrom(s, steps) && AllProper(steps)
    ensures RunFrom(s, steps).requests.Keys == s.requests.Keys
    ensures forall r :: r in s.requests ==> RunFrom(s, steps).requests[r].phase.Finished?
    decreases Sum(s.requests, RankOf())
  {
    hide Inv, KeysOk, Next, Enabled, Sum;
    RanksAreNatural(s.requests);
    if r :| Unfinished(s, r) {
      var b := Above(s.redis);
      var step := ClimbToStep(s, r, b);
      var s' := Next(s, step);
      ProperIsOwn(s, step);
      StepLowersRank(s, step);
      StepKeepsInv(s, step);
      StepKeepsKeysOk(s, step);
      SumReplace(s.requests, RankOf(), step.r, s'.requests[step.r]);
      RanksAreNatural(s'.requests);
      var rest := AllCanFinish(s');
      steps := [step] + rest;
      assert steps[1..] == rest;
    } else {
      steps := [];
      forall r | r in s.requests
        ensures s.requests[r].phase.Finished?
      {
        assert !Unfinished(s, r);
      }
    }
  }

  lemma ProperIsOwn(s: System, step: Step)
    requires KeysOk(s) && Enabled(s, step) && Proper(step)
    ensures step.r in s.requests && KeysWellTaken(s.requests[step.r]) && CleanStep(step)
  {
  }
}
