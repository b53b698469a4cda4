/**
  The in-memory lock manager. A `with` block around `acquire` is `Enter`, then
  the body, then - if `Enter` reached the yield - `Exit` on every way out.
*/
module InMemoryLocks {
  import opened Prelude

  /** Lock keys, written as the account ids they are made of. */
  type LockKey = nat

  function KeySet(keys: seq<LockKey>): set<LockKey> {
    set k | k in keys
  }

  /** Key `i` is the first that is taken already, by somebody else or by an earlier position of the same call. */
  ghost predicate FirstConflict(held: set<LockKey>, keys: seq<LockKey>, i: nat) {
    && i < |keys|
    && (keys[i] in held || keys[i] in keys[..i])
    && Distinct(keys[..i])
    && forall j :: 0 <= j < i ==> keys[j] !in held
  }

  class InMemoryLockManager {
    var held: set<LockKey>

    constructor ()
      ensures held == {}
    {
      held := {};
    }

    /**
      The code before the `yield`. It gets there with all keys, exactly when they
      are distinct and free; otherwise it raises for the first conflicting key
      and `held` is what it was.
    */
    method Enter(keys: seq<LockKey>) returns (conflict: Option<LockKey>, acquired: seq<LockKey>)
      modifies this
      ensures conflict.None? <==> Distinct(keys) && old(held) !! KeySet(keys)
      ensures conflict.None? ==> acquired == keys && held == old(held) + KeySet(keys)
      ensures conflict.Some? ==> held == old(held)
      ensures conflict.Some? ==>
                exists i: nat :: FirstConflict(old(held), keys, i) && conflict.value == keys[i]
    {
      acquired := [];
      var n := 0;
      while n < |keys|
        invariant n <= |keys| && acquired == keys[..n]
        invariant held == old(held) + KeySet(keys[..n])
        invariant Distinct(keys[..n]) && forall j :: 0 <= j < n ==> keys[j] !in old(held)
      {
        var key := keys[n];
        if key in held {
          assert FirstConflict(old(held), keys, n);
          ConflictBlocks(old(held), keys, n);
          Exit(acquired);
          return Some(key), acquired;
        }
        held := held + {key};
        acquired := acquired + [key];
        n := n + 1;
      }
      assert keys[..n] == keys;
      conflict := None;
    }

    /** The `finally` block: drops exactly the acquired keys, whatever else happened to `held` meanwhile. */
    method Exit(acquired: seq<LockKey>)
      modifies this
      ensures held == old(held) - KeySet(acquired)
    {
      var n := 0;
      while n < |acquired|
        invariant n <= |acquired|
        invariant held == old(held) - KeySet(acquired[..n])
      {
        held := held - {acquired[n]};
        n := n + 1;
      }
      assert acquired[..n] == acquired;
    }
  }

  lemma ConflictBlocks(held: set<LockKey>, keys: seq<LockKey>, i: nat)
    requires FirstConflict(held, keys, i)
    ensures !(Distinct(keys) && held !! KeySet(keys))
  {
    assert keys[i] in KeySet(keys);
  }

  // ----- Brackets of many callers, interleaved in any way ---------------------------

  /** The shared set, and for every caller that is between `Enter` and `Exit` the keys it acquired. */
  datatype Callers = Callers(held: set<LockKey>, inside: map<nat, seq<LockKey>>)

  datatype CallerStep = EnterStep(caller: nat, keys: seq<LockKey>) | ExitStep(caller: nat)

  /** One caller enters - or raises and changes nothing - or leaves its bracket. */
  ghost function CallerStepped(s: Callers, step: CallerStep): Callers {
    match step
    case EnterStep(caller, keys) =>
      if caller !in s.inside && Distinct(keys) && s.held !! KeySet(keys)
      then Callers(s.held + KeySet(keys), s.inside[caller := keys]) else s
    case ExitStep(caller) =>
      if caller in s.inside then Callers(s.held - KeySet(s.inside[caller]), s.inside - {caller}) else s
  }

  ghost function CallersStepped(s: Callers, steps: seq<CallerStep>): Callers {
    if steps == [] then s else CallerStepped(CallersStepped(s, steps[..|steps| - 1]), steps[|steps| - 1])
  }

  /** The keys held are `others` and the keys of those inside, and no two of them share one. */
  ghost predicate Separated(s: Callers, others: set<LockKey>) {
    && (forall t, k :: t in s.inside && k in s.inside[t] ==> k in s.held && k !in others)
    && (forall k :: k in s.held ==> k in others || exists t :: t in s.inside && k in s.inside[t])
    && others <= s.held
    && (forall t, u, k :: t in s.inside && u in s.inside && t != u && k in s.inside[t] ==> k !in s.inside[u])
  }

  lemma CallerStepKeepsSeparated(s: Callers, others: set<LockKey>, step: CallerStep)
    requires Separated(s, others)
    ensures Separated(CallerStepped(s, step), others)
  {
    var s' := CallerStepped(s, step);
    if s' != s {
      forall k | k in s'.held
        ensures k in others || exists t :: t in s'.inside && k in s'.inside[t]
      {
        if step.EnterStep? && k in KeySet(step.keys) {
          assert step.caller in s'.inside && k in s'.inside[step.caller];
        } else if k !in others {
          var t :| t in s.inside && k in s.inside[t];
          assert t in s'.inside && k in s'.inside[t];
        }
      }
      forall t, u, k | t in s'.inside && u in s'.inside && t != u && k in s'.inside[t]
        ensures k !in s'.inside[u]
      {
        if step.EnterStep? {
          assert k in step.keys ==> k in KeySet(step.keys);
        }
      }
    }
  }

  /**
    The bracket property, for any number of callers entering and leaving in any
    order: no key is ever held by two callers, and once every caller has left, the set
    is what it was before the first one came.
  */
  lemma {:induction false} BracketsRestore(others: set<LockKey>, steps: seq<CallerStep>)
    ensures var s := CallersStepped(Callers(others, map[]), steps);
      Separated(s, others) && (s.inside == map[] ==> s.held == others)
  {
    if steps != [] {
      BracketsRestore(others, steps[..|steps| - 1]);
      var before := CallersStepped(Callers(others, map[]), steps[..|steps| - 1]);
      CallerStepKeepsSeparated(before, others, steps[|steps| - 1]);
    }
  }

  /** A transfer to the same account asks for one key twice and always raises. */
  lemma SelfTransferConflicts(held: set<LockKey>, key: LockKey)
    ensures !Distinct([key, key])
    ensures key !in held ==> FirstConflict(held, [key, key], 1)
  {
    assert [key, key][0] == [key, key][1];
    assert [key, key][..1] == [key];
  }
}
