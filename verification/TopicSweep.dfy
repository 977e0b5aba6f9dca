/**
 * What one sweep of the session pool guarantees (topics.js): the drop list is exactly what was
 * removed, the archive list is exactly what was retired or evicted, topics in use are not touched,
 * the cap evicts the oldest first and stays too high only if all that is left is in use, and a
 * second sweep at the same instant does nothing.
 */
module TopicSweep {
  import opened Options
  import opened ObjectKeys
  import opened TopicPool

  function Kept(pool: Pool, now: int, policy: Policy): Pool {
    var retired := RetireAll(pool, now, policy);
    Remove(retired, Set(ForgottenKeys(retired, now, policy)))
  }

  lemma {:induction false} KeptIsValid(pool: Pool, now: int, policy: Policy)
    requires pool.Valid()
    ensures RetireAll(pool, now, policy).Valid() && Kept(pool, now, policy).Valid()
  {
    var retired := RetireAll(pool, now, policy);
    assert retired.Valid();
    RemoveIsValid(retired, Set(ForgottenKeys(retired, now, policy)));
  }

  lemma {:induction false} EvictedAreKeys(pool: Pool, now: int, policy: Policy)
    requires pool.Valid()
    ensures NoDuplicates(Evicted(pool, now, policy))
    ensures forall k :: k in Evicted(pool, now, policy) ==> k in pool.slots && Evictable(pool.slots[k], now)
  {
    OldestAreKeys(pool, now);
    var oldest := Oldest(pool, now);
    assert forall k :: k in Evicted(pool, now, policy) ==> k in oldest;
  }

  /** The two removals of a sweep. */
  lemma {:induction false} SweepIs(pool: Pool, now: int, policy: Policy)
    requires pool.Valid()
    ensures var forgotten := ForgottenKeys(RetireAll(pool, now, policy), now, policy);
            var kept := Kept(pool, now, policy);
            var evicted := Evicted(kept, now, policy);
            var s := Sweep(pool, now, policy);
            && s.pool == Remove(kept, Set(evicted)) && s.drop == forgotten + evicted
            && NoDuplicates(forgotten) && NoDuplicates(evicted)
            && (forall k :: k in forgotten ==> k in pool.slots) && (forall k :: k in evicted ==> k in kept.slots)
            && kept.slots.Keys == pool.slots.Keys - Set(forgotten)
            && (forall k :: k in kept.slots ==> kept.slots[k] == Retire(pool.slots[k], now, policy))
            && kept.keys == Pick(pool.keys, kept.slots.Keys)
            && kept.Valid()
  {
    hide Evicted, Retire, Forgotten, Named, QuietKeys;
    var retired := RetireAll(pool, now, policy);
    KeptIsValid(pool, now, policy);
    EvictedAreKeys(Kept(pool, now, policy), now, policy);
    PickKeepsDistinct(retired.keys, set k | k in retired.slots && Forgotten(retired.slots[k], now, policy));
    assert Kept(pool, now, policy).slots.Keys == retired.slots.Keys - Set(ForgottenKeys(retired, now, policy));
  }

  /** The drop list has no duplicates and names exactly the keys that are gone; nobody else moves. */
  lemma {:induction false} DropIsExact(pool: Pool, now: int, policy: Policy)
    requires pool.Valid()
    ensures var s := Sweep(pool, now, policy);
            && s.pool.Valid() && NoDuplicates(s.drop)
            && (forall k :: k in s.drop <==> k in pool.slots && k !in s.pool.slots)
            && (forall k :: k in s.pool.slots ==> k in pool.slots && s.pool.slots[k] == Retire(pool.slots[k], now, policy))
            && s.pool.keys == Pick(pool.keys, s.pool.slots.Keys)
  {
    hide Sweep, Evicted, Retire, ForgottenKeys, RetireAll, Kept, Pick, Table.Valid, NoDuplicates;
    var forgotten := ForgottenKeys(RetireAll(pool, now, policy), now, policy);
    var kept := Kept(pool, now, policy);
    var evicted := Evicted(kept, now, policy);
    SweepIs(pool, now, policy);
    RemoveIsValid(kept, Set(evicted));
    assert NoDuplicates(forgotten + evicted) by { JoinDistinct(forgotten, evicted); }
    PickTwice(pool.keys, kept.slots.Keys, kept.slots.Keys - Set(evicted));
    assert kept.slots.Keys * (kept.slots.Keys - Set(evicted)) == kept.slots.Keys - Set(evicted);
    assert Remove(kept, Set(evicted)).slots.Keys == kept.slots.Keys - Set(evicted);
  }

  /** A live entry used at exactly this instant is not touched. */
  lemma {:induction false} InUseIsUntouched(pool: Pool, now: int, policy: Policy, key: Key)
    requires pool.Valid() && key in pool.slots
    requires pool.slots[key].Entry? && !pool.slots[key].archived && pool.slots[key].lastUsedAt == Some(now)
    ensures var s := Sweep(pool, now, policy);
            key in s.pool.slots && s.pool.slots[key] == pool.slots[key] && key !in s.drop
  {
    DropIsExact(pool, now, policy);
    KeptIsValid(pool, now, policy);
    EvictedAreKeys(Kept(pool, now, policy), now, policy);
  }

  // ---------------------------------------------------------------- the cap

  /** Archived two archive windows ago, if need be by this very sweep. */
  predicate IsPast(e: Slot, now: int, policy: Policy) {
    e.Entry? &&
    if e.archived then now - e.archivedAt.Or(e.lastUsedAt.Or(now)) >= 2 * policy.archiveIdleMs
    else policy.archiveIdleMs == 0 && e.session != "" && e.lastUsedAt != Some(now) && e.lastUsedAt.Or(0) <= now
  }

  lemma PastIff(e: Slot, now: int, policy: Policy)
    ensures IsPast(e, now, policy) <==> Forgotten(Retire(e, now, policy), now, policy)
  {
  }

  /** What is past goes; what else goes is an entry not in use, no newer than any such entry that stays, and only down to the cap. */
  lemma {:induction false} EvictionTakesTheOldest(pool: Pool, now: int, policy: Policy, gone: Key, left: Key)
    requires pool.Valid() && gone in pool.slots && left in Sweep(pool, now, policy).pool.slots
    ensures left in pool.slots && !IsPast(pool.slots[left], now, policy)
    ensures var e := pool.slots[gone];
            gone in Sweep(pool, now, policy).drop && !IsPast(e, now, policy) ==>
              && e.Entry? && e.lastUsedAt != Some(now) && |Sweep(pool, now, policy).pool.keys| >= policy.maxPoolSize
              && (pool.slots[left].Entry? && pool.slots[left].lastUsedAt != Some(now) ==> e.lastUsedAt.Or(0) <= pool.slots[left].lastUsedAt.Or(0))
  {
    hide Sweep, Retire, RetireAll, Kept, Pick, Oldest, IsPast, Forgotten, LastUse, Evictable, Table.Valid;
    var kept := Kept(pool, now, policy);
    SweepIs(pool, now, policy);
    PastIff(pool.slots[gone], now, policy);
    ForgottenAre(pool, now, policy, gone);
    assert left in kept.slots && left in pool.slots;
    PastIff(pool.slots[left], now, policy);
    ForgottenAre(pool, now, policy, left);
    if gone in Evicted(kept, now, policy) {
      EvictedAreKeys(kept, now, policy);
      EvictedSize(kept, now, policy);
      UseIsKept(pool.slots[gone], now, policy);
      UseIsKept(pool.slots[left], now, policy);
      if Evictable(kept.slots[left], now) {
        EvictedBeforeLeft(kept, now, policy, gone, left);
      }
    }
  }

  lemma ForgottenAre(pool: Pool, now: int, policy: Policy, key: Key)
    requires pool.Valid() && key in pool.slots
    ensures key in ForgottenKeys(RetireAll(pool, now, policy), now, policy) <==> Forgotten(Retire(pool.slots[key], now, policy), now, policy)
  {
    hide Forgotten, Retire;
  }

  lemma UseIsKept(e: Slot, now: int, policy: Policy)
    ensures var e' := Retire(e, now, policy);
            && (Evictable(e', now) <==> e.Entry? && e.lastUsedAt != Some(now))
            && (e.Entry? ==> LastUse(e') == e.lastUsedAt.Or(0))
  {
  }

  lemma {:induction false} EvictedBeforeLeft(kept: Pool, now: int, policy: Policy, gone: Key, left: Key)
    requires kept.Valid() && gone in Evicted(kept, now, policy)
    requires left in kept.slots && left !in Evicted(kept, now, policy) && Evictable(kept.slots[left], now)
    ensures LastUse(Get(kept, gone)) <= LastUse(Get(kept, left)) && gone in kept.slots
  {
    hide Evictable, Pick, SortByRank;
    var evictable := Pick(kept.keys, set k | k in kept.slots && Evictable(kept.slots[k], now));
    OldestAreKeys(kept, now);
    PickKeepsDistinct(kept.keys, set k | k in kept.slots && Evictable(kept.slots[k], now));
    var oldest, evicted := Oldest(kept, now), Evicted(kept, now, policy);
    assert evicted == oldest[..|evicted|];
    assert gone in oldest;
    FirstsRankLow(evictable, LastUses(kept), |evicted|, gone, left);
  }

  /** A pool that stays above the cap holds no well-formed entry that is not in use. */
  lemma {:induction false} OverfullMeansInUse(pool: Pool, now: int, policy: Policy, key: Key)
    requires pool.Valid()
    ensures var s := Sweep(pool, now, policy);
            |s.pool.keys| > policy.maxPoolSize && key in s.pool.slots && s.pool.slots[key].Entry? ==>
              s.pool.slots[key].lastUsedAt == Some(now)
  {
    var kept := Kept(pool, now, policy);
    KeptIsValid(pool, now, policy);
    OldestAreKeys(kept, now);
    EvictedSize(kept, now, policy);
    assert Sweep(pool, now, policy).pool == Remove(kept, Set(Evicted(kept, now, policy)));
  }

  /** The cap removes as many as it needs or as it may, and never more. */
  lemma {:induction false} EvictedSize(kept: Pool, now: int, policy: Policy)
    requires kept.Valid()
    ensures var evicted := Evicted(kept, now, policy);
            && |Remove(kept, Set(evicted)).keys| == |kept.keys| - |evicted|
            && (|kept.keys| - |evicted| > policy.maxPoolSize ==> evicted == Oldest(kept, now))
            && (evicted != [] ==> |kept.keys| - |evicted| >= policy.maxPoolSize)
  {
    EvictedAreKeys(kept, now, policy);
    PickLess(kept.keys, kept.slots.Keys, Evicted(kept, now, policy));
  }

  // ---------------------------------------------------------------- sweeping twice

  /** A second sweep at the same instant does nothing. */
  lemma {:induction false} SweepTwice(pool: Pool, now: int, policy: Policy)
    requires pool.Valid()
    ensures var s := Sweep(pool, now, policy); Sweep(s.pool, now, policy) == Swept(s.pool, [], [])
  {
    var s := Sweep(pool, now, policy).pool;
    assert s.Valid() by { DropIsExact(pool, now, policy); }
    NothingQuiet(pool, now, policy);
    NothingForgotten(pool, now, policy);
    NothingToEvict(pool, now, policy);
    hide Quiet, Forgotten, Evicted, Table.Valid;
    IdleSweep(s, now, policy);
  }

  lemma {:induction false} IdleSweep(s: Pool, now: int, policy: Policy)
    requires s.Valid() && Evicted(s, now, policy) == []
    requires forall k :: k in s.slots ==> !Quiet(s.slots[k], now, policy)
    requires forall k :: k in s.slots ==> !Forgotten(s.slots[k], now, policy)
    ensures Sweep(s, now, policy) == Swept(s, [], [])
  {
    hide Evicted, Forgotten, Quiet;
    PickNone(s.keys, set k | k in s.slots && Quiet(s.slots[k], now, policy));
    assert QuietKeys(s, now, policy) == [];
    assert RetireAll(s, now, policy) == s;
    PickNone(s.keys, set k | k in s.slots && Forgotten(s.slots[k], now, policy));
    assert ForgottenKeys(s, now, policy) == [];
    RemoveNothing(s);
  }

  lemma {:induction false} NothingQuiet(pool: Pool, now: int, policy: Policy)
    requires pool.Valid()
    ensures var s := Sweep(pool, now, policy).pool; forall k :: k in s.slots ==> !Quiet(s.slots[k], now, policy)
  {
    DropIsExact(pool, now, policy);
  }

  lemma {:induction false} NothingForgotten(pool: Pool, now: int, policy: Policy)
    requires pool.Valid()
    ensures var s := Sweep(pool, now, policy).pool; forall k :: k in s.slots ==> !Forgotten(s.slots[k], now, policy)
  {
    hide Forgotten, Retire, Evicted;
    var retired := RetireAll(pool, now, policy);
    var forgotten := ForgottenKeys(retired, now, policy);
    KeptIsValid(pool, now, policy);
    var s := Sweep(pool, now, policy).pool;
    forall k | k in s.slots
      ensures !Forgotten(s.slots[k], now, policy)
    {
      assert k in retired.slots && s.slots[k] == retired.slots[k] && k !in forgotten;
      assert k in retired.keys;
    }
  }

  lemma {:induction false} NothingToEvict(pool: Pool, now: int, policy: Policy)
    requires pool.Valid()
    ensures Evicted(Sweep(pool, now, policy).pool, now, policy) == []
  {
    var s := Sweep(pool, now, policy).pool;
    if |s.keys| > policy.maxPoolSize {
      forall k | k in s.slots
        ensures !Evictable(s.slots[k], now)
      {
        OverfullMeansInUse(pool, now, policy, k);
      }
      PickNone(s.keys, set k | k in s.slots && Evictable(s.slots[k], now));
    }
  }

  // ---------------------------------------------------------------- the archive list

  lemma {:induction false} NamedAre(keys: seq<Key>, pool: Pool, reason: string)
    ensures forall a :: a in Named(keys, pool, reason) <==>
              (a.key in keys && Get(pool, a.key).Entry? && a.session != "" && a == Archived(a.key, Get(pool, a.key).session, reason))
  {
    if keys != [] {
      NamedAre(keys[..|keys| - 1], pool, reason);
    }
  }

  /** A sweep names exactly the sessions of the topics it retires and of those it evicts for the cap. */
  lemma {:induction false} ArchiveIsExact(pool: Pool, now: int, policy: Policy, a: Archived)
    requires pool.Valid()
    ensures a in Sweep(pool, now, policy).archive <==>
              && a.key in pool.slots && pool.slots[a.key].Entry? && a.session == pool.slots[a.key].session && a.session != ""
              && (if a.reason == "archive-idle" then Quiet(pool.slots[a.key], now, policy)
                  else a.reason == "pool-cap" && a.key in Sweep(pool, now, policy).drop && !Forgotten(Retire(pool.slots[a.key], now, policy), now, policy))
  {
    hide Evicted, Forgotten, Quiet, Retire, Pick;
    var retired := RetireAll(pool, now, policy);
    var kept := Kept(pool, now, policy);
    var evicted := Evicted(kept, now, policy);
    NamedAre(QuietKeys(pool, now, policy), pool, "archive-idle");
    NamedAre(evicted, kept, "pool-cap");
    SweepIs(pool, now, policy);
    if a.key in pool.slots {
      QuietIsEntry(pool.slots[a.key], now, policy);
      assert a.key in ForgottenKeys(retired, now, policy) <==> Forgotten(Retire(pool.slots[a.key], now, policy), now, policy);
    }
    assert a.key in evicted <==> a.key in Set(evicted);
  }
}
