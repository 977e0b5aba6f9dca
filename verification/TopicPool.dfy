/** The session pool: one session per topic (topics.js). */
module TopicPool {
  // A session is reused until a budget runs out, retired and evicted by a sweep. A pool is a JavaScript object,
  // so it is modelled with the order of its keys.

  import opened Options
  import opened ObjectKeys

  type Session = string

  /** One pool slot: a record, or something that is not a record. A field that is not a number is None. */
  datatype Slot =
    | Malformed
    | Entry(session: Session, wakes: Option<int>, createdAt: Option<int>, lastUsedAt: Option<int>, title: string,
            archived: bool, archivedAt: Option<int>)

  type Pool = Table<Slot>

  /** Times in milliseconds, as planSession and sweepPool use them. */
  datatype Policy = Policy(maxSessionWakes: nat, maxSessionAgeMs: nat, topicIdleResetMs: nat, archiveIdleMs: nat, maxPoolSize: nat)

  datatype Archived = Archived(key: Key, session: Session, reason: string)

  // ---------------------------------------------------------------- planSession

  datatype Plan = Reuse(session: Session) | Create(reason: string, archive: seq<Archived>)

  function Wakes(e: Slot): nat
    requires e.Entry?
  {
    var w := e.wakes.Or(0);
    if w < 0 then 0 else w
  }

  function PlanSession(pool: Pool, key: Key, now: int, policy: Policy, dead: set<Session>): Plan {
    if key !in pool.slots || pool.slots[key].Malformed? then Create("new-topic", [])
    else
      var e := pool.slots[key];
      if e.archived then Create("archived", [])
      else if e.session == "" || e.session in dead then Create("missing", [])
      else if now - e.lastUsedAt.Or(now) > policy.topicIdleResetMs then Create("idle-reset", [Archived(key, e.session, "idle-reset")])
      else if Wakes(e) >= policy.maxSessionWakes then Create("wake-budget", [Archived(key, e.session, "wake-budget")])
      else if now - e.createdAt.Or(now) > policy.maxSessionAgeMs then Create("session-age", [Archived(key, e.session, "session-age")])
      else Reuse(e.session)
  }

  /** A session is reused exactly while it is alive, not idle for too long, within its budget and not too old. */
  lemma {:induction false} ReuseIff(pool: Pool, key: Key, now: int, policy: Policy, dead: set<Session>, session: Session)
    ensures PlanSession(pool, key, now, policy, dead) == Reuse(session) <==>
              && key in pool.slots && pool.slots[key].Entry? && !pool.slots[key].archived
              && pool.slots[key].session == session && session != "" && session !in dead
              && (pool.slots[key].lastUsedAt.Some? ==> now - pool.slots[key].lastUsedAt.value <= policy.topicIdleResetMs)
              && (if pool.slots[key].wakes.Some? && pool.slots[key].wakes.value > 0 then pool.slots[key].wakes.value else 0) < policy.maxSessionWakes
              && (pool.slots[key].createdAt.Some? ==> now - pool.slots[key].createdAt.value <= policy.maxSessionAgeMs)
  {
  }

  /** Otherwise a new one is made; the old one is named exactly if it is alive, for the first of the three reasons. */
  lemma {:induction false} NamedIff(pool: Pool, key: Key, now: int, policy: Policy, dead: set<Session>)
    requires key in pool.slots && pool.slots[key].Entry?
    ensures var e, plan := pool.slots[key], PlanSession(pool, key, now, policy, dead);
            var alive := !e.archived && e.session != "" && e.session !in dead;
            var idle := e.lastUsedAt.Some? && now - e.lastUsedAt.value > policy.topicIdleResetMs;
            var spent := (if e.wakes.Some? && e.wakes.value > 0 then e.wakes.value else 0) >= policy.maxSessionWakes;
            var aged := e.createdAt.Some? && now - e.createdAt.value > policy.maxSessionAgeMs;
            && (alive && idle ==> plan == Create("idle-reset", [Archived(key, e.session, "idle-reset")]))
            && (alive && !idle && spent ==> plan == Create("wake-budget", [Archived(key, e.session, "wake-budget")]))
            && (alive && !idle && !spent && aged ==> plan == Create("session-age", [Archived(key, e.session, "session-age")]))
            && (!alive ==> plan == Create(if e.archived then "archived" else "missing", []))
  {
  }

  // ---------------------------------------------------------------- recordUse

  function Used(previous: Slot, session: Session, title: string, now: int, messages: int): Slot {
    var count := if messages < 0 then 0 else messages;
    var continuing := previous.Entry? && previous.session == session;
    Entry(session,
          Some((if continuing then Wakes(previous) else 0) + count),
          Some(if continuing then previous.createdAt.Or(now) else now),
          Some(now),
          if title != "" then title else if previous.Entry? then previous.title else "",
          false,
          None)
  }

  function Get(pool: Pool, key: Key): Slot {
    if key in pool.slots then pool.slots[key] else Malformed
  }

  // ---------------------------------------------------------------- sweepPool

  /** Idle long enough to be archived now. */
  predicate Quiet(slot: Slot, now: int, policy: Policy) {
    && slot.Entry? && !slot.archived && slot.lastUsedAt != Some(now) && slot.session != ""
    && now - slot.lastUsedAt.Or(0) >= policy.archiveIdleMs
  }

  function Retire(slot: Slot, now: int, policy: Policy): Slot {
    if Quiet(slot, now, policy) then slot.(archived := true, archivedAt := Some(now)) else slot
  }

  /** Archived for two more archive windows. */
  predicate Forgotten(slot: Slot, now: int, policy: Policy) {
    slot.Entry? && slot.archived && now - slot.archivedAt.Or(slot.lastUsedAt.Or(now)) >= 2 * policy.archiveIdleMs
  }

  /** A record that is not in use at this instant. */
  predicate Evictable(slot: Slot, now: int) {
    slot.Entry? && slot.lastUsedAt != Some(now)
  }

  function LastUse(slot: Slot): int {
    if slot.Entry? then slot.lastUsedAt.Or(0) else 0
  }

  function RetireAll(pool: Pool, now: int, policy: Policy): Pool {
    pool.(slots := map k | k in pool.slots :: Retire(pool.slots[k], now, policy))
  }

  function QuietKeys(pool: Pool, now: int, policy: Policy): seq<Key> {
    Pick(pool.keys, set k | k in pool.slots && Quiet(pool.slots[k], now, policy))
  }

  function ForgottenKeys(pool: Pool, now: int, policy: Policy): seq<Key> {
    Pick(pool.keys, set k | k in pool.slots && Forgotten(pool.slots[k], now, policy))
  }

  function LastUses(pool: Pool): map<Key, int> {
    map k | k in pool.slots :: LastUse(pool.slots[k])
  }

  function Oldest(pool: Pool, now: int): seq<Key> {
    SortByRank(Pick(pool.keys, set k | k in pool.slots && Evictable(pool.slots[k], now)), LastUses(pool))
  }

  /** The keys that the cap evicts, oldest first. */
  function Evicted(pool: Pool, now: int, policy: Policy): seq<Key> {
    var oldest := Oldest(pool, now);
    var excess := |pool.keys| - policy.maxPoolSize;
    if excess <= 0 then [] else if excess >= |oldest| then oldest else oldest[..excess]
  }

  /** The archive records for some keys; a record without a session is skipped. */
  function Named(keys: seq<Key>, pool: Pool, reason: string): seq<Archived> {
    if keys == [] then []
    else
      var k := keys[|keys| - 1];
      Named(keys[..|keys| - 1], pool, reason) +
      if Get(pool, k).Entry? && Get(pool, k).session != "" then [Archived(k, Get(pool, k).session, reason)] else []
  }

  datatype Swept = Swept(pool: Pool, archive: seq<Archived>, drop: seq<Key>)

  function Sweep(pool: Pool, now: int, policy: Policy): Swept {
    var retired := RetireAll(pool, now, policy);
    var forgotten := ForgottenKeys(retired, now, policy);
    var kept := Remove(retired, Set(forgotten));
    var evicted := Evicted(kept, now, policy);
    Swept(Remove(kept, Set(evicted)),
          Named(QuietKeys(pool, now, policy), pool, "archive-idle") + Named(evicted, kept, "pool-cap"),
          forgotten + evicted)
  }

  // ---------------------------------------------------------------- the pool object

  class SessionPool {
    var keys: seq<Key>
    var slots: map<Key, Slot>

    constructor ()
      ensures View() == Table([], map[])
    {
      keys, slots := [], map[];
    }

    function View(): Pool
      reads this
    {
      Table(keys, slots)
    }

    method RecordUse(key: Key, session: Session, title: string, now: int, messages: int) returns (entry: Slot)
      modifies this
      ensures entry == Used(Get(old(View()), key), session, title, now, messages)
      ensures View() == Put(old(View()), key, entry)
      ensures entry.Entry? && entry.session == session && entry.lastUsedAt == Some(now) && !entry.archived
      ensures var continues := key in old(slots) && old(slots)[key].Entry? && old(slots)[key].session == session;
              && entry.wakes == Some((if messages > 0 then messages else 0) +
                                     if continues && old(slots)[key].wakes.Some? && old(slots)[key].wakes.value > 0 then old(slots)[key].wakes.value else 0)
              && entry.createdAt == (if continues && old(slots)[key].createdAt.Some? then old(slots)[key].createdAt else Some(now))
      ensures forall policy: Policy, dead: set<Session>, later: int ::
                PlanSession(View(), key, later, policy, dead) == Reuse(session) <==>
                  && session != "" && session !in dead && later - now <= policy.topicIdleResetMs
                  && entry.wakes.Or(0) < policy.maxSessionWakes && later - entry.createdAt.Or(0) <= policy.maxSessionAgeMs
    {
      var previous := if key in slots then slots[key] else Malformed;
      var count := if messages < 0 then 0 else messages;
      var continuing := previous.Entry? && previous.session == session;
      var wakes, createdAt := 0, now;
      if continuing {
        wakes := Wakes(previous);
        createdAt := previous.createdAt.Or(now);
      }
      var kept := if title != "" then title else if previous.Entry? then previous.title else "";
      entry := Entry(session, Some(wakes + count), Some(createdAt), Some(now), kept, false, None);
      keys := if key in slots then keys else keys + [key];
      slots := slots[key := entry];
    }

    /** `delete store[key]`. */
    method Delete(key: Key)
      modifies this
      ensures View() == Remove(old(View()), {key})
    {
      keys := Pick(keys, slots.Keys - {key});
      slots := slots - {key};
    }

    method SweepPool(now: int, policy: Policy) returns (archive: seq<Archived>, drop: seq<Key>)
      requires View().Valid()
      modifies this
      ensures Swept(View(), archive, drop) == Sweep(old(View()), now, policy)
    {
      hide Pick, Remove, Set, Evicted, ForgottenKeys, QuietKeys, RetireAll, Named, Table.Valid;
      archive := ArchiveQuiet(now, policy);
      ghost var retired := View();
      drop := ForgetOld(now, policy);
      RemoveIsValid(retired, Set(drop));
      var more, evicted := CapSize(now, policy);
      archive, drop := archive + more, drop + evicted;
    }

    method ArchiveQuiet(now: int, policy: Policy) returns (archive: seq<Archived>)
      requires View().Valid()
      modifies this
      ensures View() == RetireAll(old(View()), now, policy) && View().Valid()
      ensures archive == Named(QuietKeys(old(View()), now, policy), old(View()), "archive-idle")
      ensures keys == old(keys) && slots.Keys == old(slots).Keys
      ensures forall k :: k in slots ==>
                var e := old(slots)[k];
                var quiet := e.Entry? && !e.archived && e.session != "" && e.lastUsedAt != Some(now) && now - e.lastUsedAt.Or(0) >= policy.archiveIdleMs;
                slots[k] == if quiet then e.(archived := true, archivedAt := Some(now)) else e
    {
      hide Named, Quiet, Retire, Pick;
      archive := [];
      ghost var pool := View();
      ghost var quiet := set k | k in pool.slots && Quiet(pool.slots[k], now, policy);
      NamedNone(pool, "archive-idle");
      PickNone(keys[..0], quiet);
      for i := 0 to |keys|
        invariant keys == pool.keys && slots.Keys == pool.slots.Keys
        invariant forall k :: k in slots ==> slots[k] == if k in keys[..i] then Retire(pool.slots[k], now, policy) else pool.slots[k]
        invariant archive == Named(Pick(keys[..i], quiet), pool, "archive-idle")
      {
        var key := keys[i];
        PickOneMore(keys, i, quiet);
        var entry := slots[key];
        QuietIsEntry(entry, now, policy);
        if Quiet(entry, now, policy) {
          slots := slots[key := entry.(archived := true, archivedAt := Some(now))];
          NamedOneMore(Pick(keys[..i], quiet), key, pool, "archive-idle");
          archive := archive + [Archived(key, entry.session, "archive-idle")];
        }
      }
      assert keys[..|keys|] == keys;
      forall k | k in slots {
        RetireMeans(pool.slots[k], now, policy);
      }
    }

    method ForgetOld(now: int, policy: Policy) returns (drop: seq<Key>)
      requires View().Valid()
      modifies this
      ensures drop == ForgottenKeys(old(View()), now, policy) && View() == Remove(old(View()), Set(drop))
      ensures forall k :: k in drop <==>
                && k in old(slots) && old(slots)[k].Entry? && old(slots)[k].archived
                && now - old(slots)[k].archivedAt.Or(old(slots)[k].lastUsedAt.Or(now)) >= 2 * policy.archiveIdleMs
    {
      hide Forgotten, Remove;
      drop := [];
      ghost var pool := View();
      ghost var old_ := set k | k in pool.slots && Forgotten(pool.slots[k], now, policy);
      var snapshot := keys;
      RemoveNothing(pool);
      for i := 0 to |snapshot|
        invariant drop == Pick(snapshot[..i], old_) && View() == Remove(pool, Set(drop))
      {
        var key := snapshot[i];
        PickOneMore(snapshot, i, old_);
        RemoveSpares(pool, Set(drop), key);
        if Forgotten(slots[key], now, policy) {
          Delete(key);
          RemoveOneMore(pool, drop, key);
          drop := drop + [key];
        }
      }
      assert snapshot[..|snapshot|] == snapshot;
      forall k | k in pool.slots {
        ForgottenIff(pool.slots[k], now, policy);
      }
    }

    method CapSize(now: int, policy: Policy) returns (archive: seq<Archived>, drop: seq<Key>)
      requires View().Valid()
      modifies this
      ensures drop == Evicted(old(View()), now, policy) && View() == Remove(old(View()), Set(drop))
      ensures archive == Named(drop, old(View()), "pool-cap")
    {
      hide Named, Remove, Oldest;
      archive, drop := [], [];
      ghost var pool := View();
      RemoveNothing(pool);
      NamedNone(pool, "pool-cap");
      var size := |keys|;
      if size > policy.maxPoolSize {
        var oldest := Oldest(View(), now);
        OldestAreKeys(pool, now);
        var i := 0;
        while i < |oldest| && size > policy.maxPoolSize
          invariant 0 <= i <= |oldest| && size == |pool.keys| - i && drop == oldest[..i]
          invariant i > 0 ==> size >= policy.maxPoolSize
          invariant View() == Remove(pool, Set(drop)) && archive == Named(drop, pool, "pool-cap")
        {
          var key := oldest[i];
          assert key in oldest && key !in oldest[..i] && oldest[..i + 1] == oldest[..i] + [key];
          RemoveSpares(pool, Set(drop), key);
          var entry := slots[key];
          NamedOneMore(drop, key, pool, "pool-cap");
          if entry.session != "" {
            archive := archive + [Archived(key, entry.session, "pool-cap")];
          }
          Delete(key);
          RemoveOneMore(pool, drop, key);
          drop := drop + [key];
          size := size - 1;
          i := i + 1;
        }
        assert i == |oldest| ==> oldest[..i] == oldest;
      }
    }
  }

  lemma NamedNone(pool: Pool, reason: string)
    ensures Named([], pool, reason) == []
  {
  }

  lemma RetireMeans(slot: Slot, now: int, policy: Policy)
    ensures var quiet := slot.Entry? && !slot.archived && slot.session != "" && slot.lastUsedAt != Some(now) && now - slot.lastUsedAt.Or(0) >= policy.archiveIdleMs;
            Retire(slot, now, policy) == if quiet then slot.(archived := true, archivedAt := Some(now)) else slot
  {
  }

  lemma ForgottenIff(slot: Slot, now: int, policy: Policy)
    ensures Forgotten(slot, now, policy) <==>
              slot.Entry? && slot.archived && now - slot.archivedAt.Or(slot.lastUsedAt.Or(now)) >= 2 * policy.archiveIdleMs
  {
  }

  lemma QuietIsEntry(slot: Slot, now: int, policy: Policy)
    ensures Quiet(slot, now, policy) ==>
              slot.Entry? && slot.session != "" && Retire(slot, now, policy) == slot.(archived := true, archivedAt := Some(now))
    ensures !Quiet(slot, now, policy) ==> Retire(slot, now, policy) == slot
  {
  }

  lemma NamedOneMore(keys: seq<Key>, key: Key, pool: Pool, reason: string)
    ensures Named(keys + [key], pool, reason) ==
              Named(keys, pool, reason) + if Get(pool, key).Entry? && Get(pool, key).session != "" then [Archived(key, Get(pool, key).session, reason)] else []
  {
    assert (keys + [key])[..|keys|] == keys;
  }

  lemma {:induction false} OldestAreKeys(pool: Pool, now: int)
    requires pool.Valid()
    ensures NoDuplicates(Oldest(pool, now))
    ensures forall k :: k in Oldest(pool, now) <==> k in pool.keys && Evictable(Get(pool, k), now)
  {
    var evictable := set k | k in pool.slots && Evictable(pool.slots[k], now);
    var chosen := Pick(pool.keys, evictable);
    PickKeepsDistinct(pool.keys, evictable);
    SortIsDistinct(chosen, LastUses(pool));
  }

  lemma {:induction false} SweepIsValid(pool: Pool, now: int, policy: Policy)
    requires pool.Valid()
    ensures Sweep(pool, now, policy).pool.Valid()
  {
    hide ForgottenKeys, Evicted, Named, QuietKeys;
    var retired := RetireAll(pool, now, policy);
    assert retired.Valid();
    hide RetireAll;
    var kept := Remove(retired, Set(ForgottenKeys(retired, now, policy)));
    RemoveIsValid(retired, Set(ForgottenKeys(retired, now, policy)));
    RemoveIsValid(kept, Set(Evicted(kept, now, policy)));
  }
}
