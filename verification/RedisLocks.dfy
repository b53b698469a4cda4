/**
  The Redis lock manager: SET NX with a lifetime, polled until a deadline, one
  key after the other, and an unconditional DEL of every acquired key on the way
  out. Times are microseconds.
*/
module RedisLocks {
  import opened Prelude

  /** The key `banking:transfer:lock:<account id>` is written as the account id. */
  type LockKey = nat

  const RETRY_INTERVAL: nat := 50_000

  /** What came of a SET NX: it took the key, found it taken, or failed on the way. */
  datatype Reply = Taken | Busy | Broken

  /** A command this client sent. */
  datatype RedisCommand =
    | SetNx(key: LockKey, ttl: nat, at: int, reply: Reply)
    | Del(key: LockKey, applied: bool)

  datatype Outcome = Reached | TimedOut | ConnectionBroken

  /**
    The Redis server and the event loop's clock as one client sees them. Between
    any two commands other clients may set and delete keys, leases may vanish and calls
    fail, so every call may leave `leases` changed; only what this client does is
    certain. In a `prompt` world calls take no time and sleeps end on time. A client
    that is `alone` has no others beside it, and none of its calls fails.
  */
  class Redis {
    const prompt: bool
    const alone: bool
    var now: int
    var leases: map<LockKey, int>
    var sent: seq<RedisCommand>

    constructor (prompt: bool, alone: bool, now: int, leases: map<LockKey, int>)
      ensures this.prompt == prompt && this.alone == alone && this.now == now && this.leases == leases && sent == []
    {
      this.prompt, this.alone, this.now, this.leases, this.sent := prompt, alone, now, leases, [];
    }

    /** There is no live lease on the key. */
    predicate Free(key: LockKey)
      reads this
    {
      key in leases ==> leases[key] <= now
    }

    /** `SET key "1" NX EX ttl`: takes the key exactly if there is no live lease on it. */
    method Set(key: LockKey, ttl: nat) returns (reply: Reply)
      modifies this
      ensures now >= old(now) && (prompt ==> now == old(now))
      ensures sent == old(sent) + [SetNx(key, ttl, now, reply)]
      ensures reply == Taken ==> key in leases && leases[key] == now + ttl
      ensures alone ==>
                && reply == (if key in old(leases) && now < old(leases)[key] then Busy else Taken)
                && leases == (if reply == Taken then old(leases)[key := now + ttl] else old(leases))
    {
      var lost: bool := *;
      var delay :| delay >= 0;
      var others: map<LockKey, int> := *;
      now := if prompt then now else now + delay;
      leases := if alone then leases else others;
      if lost && !alone {
        reply := Broken;
      } else if key in leases && now < leases[key] {
        reply := Busy;
      } else {
        reply := Taken;
        leases := leases[key := now + ttl];
      }
      sent := sent + [SetNx(key, ttl, now, reply)];
    }

    /** `DEL key`, whoever set it; the caller swallows the error of a call that fails. */
    method Delete(key: LockKey) returns (applied: bool)
      modifies this
      ensures now >= old(now) && (prompt ==> now == old(now))
      ensures sent == old(sent) + [Del(key, applied)]
      ensures applied ==> key !in leases
      ensures alone ==> applied && leases == old(leases) - {key}
    {
      var lost: bool := *;
      var delay :| delay >= 0;
      var others: map<LockKey, int> := *;
      applied := alone || !lost;
      now := if prompt then now else now + delay;
      leases := if alone then leases else others;
      leases := if applied then leases - {key} else leases;
      sent := sent + [Del(key, applied)];
    }

    /** `asyncio.sleep(d)` resumes no earlier than `d` later. */
    method Sleep(d: nat)
      modifies this
      ensures now >= old(now) + d && (prompt ==> now == old(now) + d) && sent == old(sent)
      ensures alone ==> leases == old(leases)
    {
      var late :| late >= 0;
      var others: map<LockKey, int> := *;
      now := if prompt then now + d else now + d + late;
      leases := if alone then leases else others;
    }
  }

  // ----- Reading the commands of one client ---------------------------------------

  function TakenKeys(c: seq<RedisCommand>): seq<LockKey> {
    if c == [] then []
    else
      var last := c[|c| - 1];
      TakenKeys(c[..|c| - 1]) + (if last.SetNx? && last.reply == Taken then [last.key] else [])
  }

  /** When each of the taken keys was taken. */
  function TakenTimes(c: seq<RedisCommand>): (times: seq<int>)
    ensures |times| == |TakenKeys(c)|
  {
    if c == [] then []
    else
      var last := c[|c| - 1];
      TakenTimes(c[..|c| - 1]) + (if last.SetNx? && last.reply == Taken then [last.at] else [])
  }

  function DeletedKeys(c: seq<RedisCommand>): seq<LockKey> {
    if c == [] then []
    else DeletedKeys(c[..|c| - 1]) + (if c[|c| - 1].Del? then [c[|c| - 1].key] else [])
  }

  lemma {:induction false} TakenKeysConcat(c: seq<RedisCommand>, d: seq<RedisCommand>)
    ensures TakenKeys(c + d) == TakenKeys(c) + TakenKeys(d)
  {
    if d == [] {
      assert c + d == c;
    } else {
      TakenKeysConcat(c, d[..|d| - 1]);
      assert (c + d)[..|c + d| - 1] == c + d[..|d| - 1];
    }
  }

  lemma {:induction false} TakenTimesConcat(c: seq<RedisCommand>, d: seq<RedisCommand>)
    ensures TakenTimes(c + d) == TakenTimes(c) + TakenTimes(d)
  {
    if d == [] {
      assert c + d == c;
    } else {
      TakenTimesConcat(c, d[..|d| - 1]);
      assert (c + d)[..|c + d| - 1] == c + d[..|d| - 1];
    }
  }

  lemma {:induction false} DeletedKeysConcat(c: seq<RedisCommand>, d: seq<RedisCommand>)
    ensures DeletedKeys(c + d) == DeletedKeys(c) + DeletedKeys(d)
  {
    if d == [] {
      assert c + d == c;
    } else {
      DeletedKeysConcat(c, d[..|d| - 1]);
      assert (c + d)[..|c + d| - 1] == c + d[..|d| - 1];
    }
  }

  /** What a stretch of commands amounts to. */
  datatype Effect = Effect(taken: seq<LockKey>, times: seq<int>, deleted: seq<LockKey>) {
    function Then(next: Effect): Effect {
      Effect(taken + next.taken, times + next.times, deleted + next.deleted)
    }
  }

  function EffectOf(c: seq<RedisCommand>): Effect {
    Effect(TakenKeys(c), TakenTimes(c), DeletedKeys(c))
  }

  lemma EffectConcat(c: seq<RedisCommand>, d: seq<RedisCommand>)
    ensures EffectOf(c + d) == EffectOf(c).Then(EffectOf(d))
  {
    TakenKeysConcat(c, d);
    TakenTimesConcat(c, d);
    DeletedKeysConcat(c, d);
  }

  function Reversed(keys: seq<LockKey>): seq<LockKey> {
    if keys == [] then [] else [keys[|keys| - 1]] + Reversed(keys[..|keys| - 1])
  }

  /** The last comes first. */
  lemma {:induction false} ReversedMeans(keys: seq<LockKey>)
    ensures |Reversed(keys)| == |keys|
    ensures forall i :: 0 <= i < |keys| ==> Reversed(keys)[i] == keys[|keys| - 1 - i]
  {
    if keys != [] {
      ReversedMeans(keys[..|keys| - 1]);
    }
  }

  /** The commands of one polling loop: every SET NX but the last found the key taken. */
  ghost predicate Polling(c: seq<RedisCommand>, key: LockKey, last: Reply) {
    && |c| > 0
    && (forall i :: 0 <= i < |c| ==> c[i].SetNx? && c[i].key == key)
    && (forall i :: 0 <= i < |c| - 1 ==> c[i].reply == Busy)
    && c[|c| - 1].reply == last
  }

  /** Every lease asked for has this lifetime. */
  ghost predicate EveryLease(c: seq<RedisCommand>, ttl: nat) {
    forall i :: 0 <= i < |c| && c[i].SetNx? ==> c[i].ttl == ttl
  }

  /** Every 50 milliseconds, and once more when the waiting time is over. */
  function PollTime(start: int, i: nat, wait: int): int {
    if i * 50_000 < wait then start + i * 50_000 else start + wait
  }

  /** Somewhere in these commands the key was polled and the last reply was this one. */
  ghost predicate Refusal(c: seq<RedisCommand>, key: LockKey, last: Reply) {
    exists lo: nat, hi: nat :: lo <= hi <= |c| && Polling(c[lo..hi], key, last)
  }

  lemma RefusalInside(before: seq<RedisCommand>, polls: seq<RedisCommand>, after: seq<RedisCommand>, key: LockKey,
                      last: Reply)
    requires Polling(polls, key, last)
    ensures Refusal(before + polls + after, key, last)
  {
    assert (before + polls + after)[|before|..|before| + |polls|] == polls;
  }

  lemma {:induction false} PollingTakes(c: seq<RedisCommand>, key: LockKey, last: Reply)
    requires Polling(c, key, last)
    ensures EffectOf(c) == if last == Taken then Effect([key], [c[|c| - 1].at], []) else Effect([], [], [])
  {
    AllBusy(c[..|c| - 1]);
  }

  lemma {:induction false} AllBusy(c: seq<RedisCommand>)
    requires forall i :: 0 <= i < |c| ==> c[i].SetNx? && c[i].reply == Busy
    ensures EffectOf(c) == Effect([], [], [])
  {
    if c != [] {
      AllBusy(c[..|c| - 1]);
    }
  }

  /** The least number of retry intervals that covers the waiting time. */
  function Intervals(wait: int): (n: nat)
    ensures wait <= n * RETRY_INTERVAL
    ensures n > 0 ==> (n - 1) * RETRY_INTERVAL < wait
  {
    if wait <= 0 then 0 else (wait + RETRY_INTERVAL - 1) / RETRY_INTERVAL
  }

  // ----- The manager ---------------------------------------------------------------

  class RedisLockManager {
    const redis: Redis
    const waitTimeout: int

    constructor (redis: Redis, waitTimeout: int)
      ensures this.redis == redis && this.waitTimeout == waitTimeout
    {
      this.redis, this.waitTimeout := redis, waitTimeout;
    }

    /**
      `_acquire_single`: polls at most one time more than there are retry intervals
      in the waiting time, never gives up before that time has passed, and in a
      prompt world never waits longer. A client that is alone gets a free key at once.
    */
    method AcquireSingle(key: LockKey, ttl: nat) returns (outcome: Outcome, ghost polls: seq<RedisCommand>)
      modifies redis
      ensures redis.sent == old(redis.sent) + polls
      ensures Polling(polls, key, LastReply(outcome))
      ensures |polls| <= Intervals(waitTimeout) + 1
      ensures redis.now >= old(redis.now)
      ensures outcome == TimedOut ==> redis.now - old(redis.now) >= waitTimeout
      ensures redis.prompt && waitTimeout >= 0 ==> redis.now - old(redis.now) <= waitTimeout
      ensures redis.prompt ==> polls[|polls| - 1].at == redis.now
      ensures outcome == Reached ==> key in redis.leases && redis.leases[key] == polls[|polls| - 1].at + ttl
      ensures EveryLease(polls, ttl)
      ensures redis.prompt && waitTimeout >= 0 ==>
                forall i :: 0 <= i < |polls| ==> polls[i].at == PollTime(old(redis.now), i, waitTimeout)
      ensures redis.alone && old(redis.Free(key)) ==>
                outcome == Reached && redis.leases == old(redis.leases)[key := polls[|polls| - 1].at + ttl]
    {
      var deadline := redis.now + waitTimeout;
      polls := [];
      while true
        invariant redis.sent == old(redis.sent) + polls
        invariant forall i :: 0 <= i < |polls| ==> polls[i].SetNx? && polls[i].key == key && polls[i].reply == Busy
        invariant redis.now >= old(redis.now)
        invariant redis.now >= deadline || redis.now - old(redis.now) >= |polls| * RETRY_INTERVAL
        invariant |polls| <= Intervals(waitTimeout)
        invariant redis.prompt && waitTimeout >= 0 ==> redis.now <= deadline
        invariant EveryLease(polls, ttl)
        invariant redis.prompt && waitTimeout >= 0 ==>
                    redis.now == PollTime(old(redis.now), |polls|, waitTimeout)
        invariant redis.prompt && waitTimeout >= 0 ==>
                    forall i :: 0 <= i < |polls| ==> polls[i].at == PollTime(old(redis.now), i, waitTimeout)
        invariant redis.alone && old(redis.Free(key)) ==> redis.Free(key) && redis.leases == old(redis.leases)
        decreases Intervals(waitTimeout) - |polls|
      {
        ghost var n := |polls|;
        var reply := redis.Set(key, ttl);
        polls := polls + [SetNx(key, ttl, redis.now, reply)];
        if reply == Taken {
          return Reached, polls;
        }
        if reply == Broken {
          return ConnectionBroken, polls;
        }
        var remaining := deadline - redis.now;
        if remaining <= 0 {
          return TimedOut, polls;
        }
        RoomForAnother(n, waitTimeout);
        redis.Sleep(if RETRY_INTERVAL < remaining then RETRY_INTERVAL else remaining);
      }
    }

    /**
      The code before the `yield`: takes the keys in the given order. It gets there
      with all of them, or raises having deleted exactly the keys it took, in
      reverse order. If it raises, its commands contain the polling of the first key it
      does not have, up to a call that failed or, no earlier than the waiting time
      allows, one more refusal; and it was not alone with distinct free keys. In a
      prompt world the lease on key `i` still has its lifetime left but for one waiting
      time per later key.
    */
    method Enter(keys: seq<LockKey>, ttl: nat)
      returns (outcome: Outcome, acquired: seq<LockKey>, ghost commands: seq<RedisCommand>)
      modifies redis
      ensures redis.sent == old(redis.sent) + commands
      ensures acquired <= keys && (outcome == Reached <==> acquired == keys)
      ensures var effect := EffectOf(commands);
        && effect.taken == acquired
        && effect.deleted == (if outcome == Reached then [] else Reversed(acquired))
        && (outcome == Reached && redis.prompt && waitTimeout >= 0 ==>
              LeasesLeft(effect.times, redis.now, ttl, waitTimeout))
      ensures redis.now >= old(redis.now) && EveryLease(commands, ttl)
      ensures outcome != Reached ==> |acquired| < |keys| && Refusal(commands, keys[|acquired|], LastReply(outcome))
      ensures outcome == TimedOut ==> redis.now - old(redis.now) >= waitTimeout
      ensures redis.alone && Distinct(keys) && (forall k :: k in keys ==> old(redis.Free(k))) ==> outcome == Reached
    {
      hide TakenKeys, TakenTimes, DeletedKeys, Reversed, Polling;
      acquired, commands := [], [];
      NoCommands();
      var n := 0;
      while n < |keys|
        invariant n <= |keys| && acquired == keys[..n]
        invariant redis.sent == old(redis.sent) + commands
        invariant EffectOf(commands).taken == acquired && EffectOf(commands).deleted == []
        invariant redis.prompt && waitTimeout >= 0 ==>
                    LeasesLeft(EffectOf(commands).times, redis.now, ttl, waitTimeout)
        invariant redis.now >= old(redis.now) && EveryLease(commands, ttl)
        invariant redis.alone && Distinct(keys) && (forall k :: k in keys ==> old(redis.Free(k))) ==>
                    forall j :: n <= j < |keys| ==> redis.Free(keys[j])
      {
        ghost var polls;
        ghost var before := redis.now;
        outcome, polls := AcquireSingle(keys[n], ttl);
        EffectConcat(commands, polls);
        PollingTakes(polls, keys[n], LastReply(outcome));
        if outcome != Reached {
          ghost var tried := commands;
          commands := commands + polls;
          ghost var dels := Exit(acquired);
          NothingThenRelease(commands, dels, acquired);
          RefusalInside(tried, polls, dels, keys[n], LastReply(outcome));
          commands := commands + dels;
          return;
        }
        if redis.prompt && waitTimeout >= 0 {
          LeasesLeftAfterWait(EffectOf(commands).times, before, redis.now, ttl, waitTimeout);
        }
        commands := commands + polls;
        acquired := acquired + [keys[n]];
        n := n + 1;
      }
      assert keys[..n] == keys;
      outcome := Reached;
    }

    /** The `finally` block: one DEL for every acquired key, last acquired first. */
    method Exit(acquired: seq<LockKey>) returns (ghost commands: seq<RedisCommand>)
      modifies redis
      ensures redis.sent == old(redis.sent) + commands
      ensures EffectOf(commands) == Effect([], [], Reversed(acquired))
      ensures redis.now >= old(redis.now) && forall i :: 0 <= i < |commands| ==> commands[i].Del?
    {
      commands := [];
      var n := |acquired|;
      assert acquired[..n] == acquired;
      while n > 0
        invariant 0 <= n <= |acquired|
        invariant redis.sent == old(redis.sent) + commands
        invariant redis.now >= old(redis.now) && forall i :: 0 <= i < |commands| ==> commands[i].Del?
        invariant EffectOf(commands).taken == [] && EffectOf(commands).times == []
        invariant EffectOf(commands).deleted + Reversed(acquired[..n]) == Reversed(acquired)
      {
        n := n - 1;
        var applied := redis.Delete(acquired[n]);
        EffectConcat(commands, [Del(acquired[n], applied)]);
        OneDelete(acquired[n], applied);
        ReversedStep(acquired, n);
        commands := commands + [Del(acquired[n], applied)];
      }
    }
  }

  lemma NothingThenRelease(c: seq<RedisCommand>, dels: seq<RedisCommand>, acquired: seq<LockKey>)
    requires EffectOf(c).deleted == [] && EffectOf(dels) == Effect([], [], Reversed(acquired))
    ensures EffectOf(c + dels).taken == EffectOf(c).taken && EffectOf(c + dels).deleted == Reversed(acquired)
  {
    EffectConcat(c, dels);
  }

  function LastReply(outcome: Outcome): Reply {
    match outcome
    case Reached => Taken
    case TimedOut => Busy
    case ConnectionBroken => Broken
  }

  lemma ReversedStep(keys: seq<LockKey>, n: nat)
    requires n < |keys|
    ensures Reversed(keys[..n + 1]) == [keys[n]] + Reversed(keys[..n])
  {
    assert keys[..n + 1][..n] == keys[..n];
  }

  lemma NoCommands()
    ensures EffectOf([]) == Effect([], [], [])
  {
  }

  lemma OneDelete(key: LockKey, applied: bool)
    ensures EffectOf([Del(key, applied)]) == Effect([], [], [key])
  {
    var c, none: seq<RedisCommand> := [Del(key, applied)], [];
    assert c[..|c| - 1] == none;
    assert TakenKeys(none) == [] && TakenTimes(none) == [] && DeletedKeys(none) == [];
  }

  lemma RoomForAnother(n: nat, wait: int)
    requires n * RETRY_INTERVAL < wait
    ensures n < Intervals(wait)
  {
  }

  /** Of the lease taken at `times[i]`, all but one waiting time per later key is still to come. */
  ghost predicate LeasesLeft(times: seq<int>, now: int, ttl: nat, wait: int) {
    forall i :: 0 <= i < |times| ==> times[i] + ttl - now >= ttl - (|times| - 1 - i) * wait
  }

  lemma LeasesLeftAfterWait(times: seq<int>, before: int, now: int, ttl: nat, wait: int)
    requires LeasesLeft(times, before, ttl, wait) && now - before <= wait
    ensures LeasesLeft(times + [now], now, ttl, wait)
  {
    var longer := times + [now];
    forall i | 0 <= i < |longer|
      ensures longer[i] + ttl - now >= ttl - (|longer| - 1 - i) * wait
    {
      if i < |times| {
        assert (|times| - i) * wait == (|times| - 1 - i) * wait + wait;
      }
    }
  }

  /**
    The whole bracket: whatever the body sends in between, provided it takes and
    deletes no lock itself, the keys deleted are the keys taken, in reverse order.
  */
  lemma BracketReleasesWhatItTook(entered: seq<RedisCommand>, body: seq<RedisCommand>, left: seq<RedisCommand>)
    requires EffectOf(entered).deleted == [] && EffectOf(body) == Effect([], [], [])
    requires EffectOf(left) == Effect([], [], Reversed(EffectOf(entered).taken))
    ensures EffectOf(entered + body + left).deleted == Reversed(EffectOf(entered + body + left).taken)
  {
    EffectConcat(entered, body);
    EffectConcat(entered + body, left);
    assert EffectOf(entered + body).taken == EffectOf(entered).taken;
    assert EffectOf(entered + body + left).taken == EffectOf(entered).taken;
  }
}
