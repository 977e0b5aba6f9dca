/** Every run of the session pool (topics.js, and the way index.js drives it). */
module TopicRuns {
  // Plan, record, sweep and lost sessions, without a pinned session. The ids of opened sessions are new.

  import opened Options
  import opened ObjectKeys
  import opened TopicPool
  import opened TopicSweep

  /** The pool, and a record of every session: who opened it, what was charged to it, was it named for archiving. */
  datatype Sys = Sys(pool: Pool, dead: set<Session>, owner: map<Session, Key>, charged: map<Session, nat>, named: set<Session>, clock: int)

  datatype Action =
    | Wait(ms: nat)
    | Wake(key: Key, title: string, messages: nat, delay: nat, opens: Option<Session>)
    | SweepNow
    | Lose(session: Session)

  function Sessions(archive: seq<Archived>): set<Session> {
    set a | a in archive :: a.session
  }

  /**
   * ensureSessionFor plans a little after the tick read its clock, and recordUse records the tick's
   * time. When no session can be opened the tick ends there.
   */
  function Apply(sys: Sys, a: Action, policy: Policy, batchLimit: nat): Sys {
    match a
    case Wait(ms) => sys.(clock := sys.clock + ms)
    case Lose(session) => sys.(dead := sys.dead + {session})
    case SweepNow =>
      var s := Sweep(sys.pool, sys.clock, policy);
      sys.(pool := s.pool, named := sys.named + Sessions(s.archive))
    case Wake(key, title, messages, delay, opens) =>
      if messages > batchLimit then sys
      else
        match PlanSession(sys.pool, key, sys.clock + delay, policy, sys.dead)
        case Reuse(session) =>
          sys.(pool := Put(sys.pool, key, Used(Get(sys.pool, key), session, title, sys.clock, messages)),
               charged := sys.charged[session := (if session in sys.charged then sys.charged[session] else 0) + messages],
               clock := sys.clock + delay)
        case Create(reason, archive) =>
          var told := sys.(named := sys.named + Sessions(archive), clock := sys.clock + delay);
          if opens == None || opens.value == "" || opens.value in sys.owner then told
          else
            told.(pool := Put(sys.pool, key, Used(Get(sys.pool, key), opens.value, title, sys.clock, messages)),
                  owner := sys.owner[opens.value := key],
                  charged := sys.charged[opens.value := messages])
  }

  function Exec(sys: Sys, run: seq<Action>, policy: Policy, batchLimit: nat): Sys
    decreases |run|
  {
    if run == [] then sys else Exec(Apply(sys, run[0], policy, batchLimit), run[1..], policy, batchLimit)
  }

  const START: Sys := Sys(Table([], map[]), {}, map[], map[], {}, 0)

  // ---------------------------------------------------------------- what every step keeps

  /** No plan at this time or later reuses the session of this slot. */
  predicate Spent(e: Slot, now: int, policy: Policy) {
    e.Entry? ==>
      || e.archived
      || now - e.lastUsedAt.Or(now) > policy.topicIdleResetMs
      || Wakes(e) >= policy.maxSessionWakes
      || now - e.createdAt.Or(now) > policy.maxSessionAgeMs
  }

  function ChargeLimit(policy: Policy, batchLimit: nat): nat {
    (if policy.maxSessionWakes == 0 then 0 else policy.maxSessionWakes - 1) + batchLimit
  }

  /** A slot of a pool that only recordUse and sweepPool wrote. */
  predicate GoodSlot(sys: Sys, key: Key, e: Slot) {
    && e.Entry? && e.lastUsedAt.Some? && e.createdAt.Some? && e.session != ""
    && e.session in sys.owner && sys.owner[e.session] == key
    && e.session in sys.charged && e.wakes == Some(sys.charged[e.session])
  }

  ghost predicate Inv(sys: Sys, policy: Policy, batchLimit: nat) {
    && sys.pool.Valid()
    && (forall k :: k in sys.pool.slots ==> GoodSlot(sys, k, sys.pool.slots[k]))
    && sys.charged.Keys == sys.owner.Keys
    && (forall s :: s in sys.charged ==> sys.charged[s] <= ChargeLimit(policy, batchLimit))
    && sys.named <= sys.owner.Keys
    && (forall k :: k in sys.pool.slots && sys.pool.slots[k].Entry? && sys.pool.slots[k].session in sys.named ==>
          Spent(sys.pool.slots[k], sys.clock, policy))
  }

  /** The plan in terms of Spent: only a live, unspent session is reused, and only a spent one is named. */
  lemma {:induction false} PlanMeans(sys: Sys, key: Key, now: int, policy: Policy, batchLimit: nat)
    requires Inv(sys, policy, batchLimit) && sys.clock <= now
    ensures match PlanSession(sys.pool, key, now, policy, sys.dead)
            case Reuse(s) =>
              && key in sys.pool.slots && sys.pool.slots[key].Entry? && sys.pool.slots[key].session == s
              && !Spent(sys.pool.slots[key], now, policy) && s !in sys.named && s !in sys.dead
            case Create(_, archive) =>
              archive != [] ==>
                && key in sys.pool.slots && sys.pool.slots[key].Entry? && Spent(sys.pool.slots[key], now, policy)
                && Sessions(archive) == {sys.pool.slots[key].session}
  {
    if key in sys.pool.slots {
      assert GoodSlot(sys, key, sys.pool.slots[key]);
    }
  }

  lemma {:induction false} ReuseKeeps(sys: Sys, key: Key, title: string, messages: nat, delay: nat, policy: Policy, batchLimit: nat)
    requires Inv(sys, policy, batchLimit) && messages <= batchLimit
    requires PlanSession(sys.pool, key, sys.clock + delay, policy, sys.dead).Reuse?
    ensures Inv(Apply(sys, Wake(key, title, messages, delay, None), policy, batchLimit), policy, batchLimit)
  {
    var s := PlanSession(sys.pool, key, sys.clock + delay, policy, sys.dead).session;
    PlanMeans(sys, key, sys.clock + delay, policy, batchLimit);
    hide PlanSession;
    assert GoodSlot(sys, key, sys.pool.slots[key]);
    var sys' := Apply(sys, Wake(key, title, messages, delay, None), policy, batchLimit);
    PutIsValid(sys.pool, key, sys'.pool.slots[key]);
    hide Table.Valid;
    forall k | k in sys'.pool.slots
      ensures GoodSlot(sys', k, sys'.pool.slots[k])
      ensures sys'.pool.slots[k].session in sys'.named ==> Spent(sys'.pool.slots[k], sys'.clock, policy)
    {
      if k != key {
        assert GoodSlot(sys, k, sys.pool.slots[k]);
      }
    }
  }

  lemma {:induction false} CreateKeeps(sys: Sys, key: Key, title: string, messages: nat, delay: nat, opens: Option<Session>, policy: Policy, batchLimit: nat)
    requires Inv(sys, policy, batchLimit) && messages <= batchLimit
    requires PlanSession(sys.pool, key, sys.clock + delay, policy, sys.dead).Create?
    ensures Inv(Apply(sys, Wake(key, title, messages, delay, opens), policy, batchLimit), policy, batchLimit)
  {
    var archive := PlanSession(sys.pool, key, sys.clock + delay, policy, sys.dead).archive;
    PlanMeans(sys, key, sys.clock + delay, policy, batchLimit);
    WakeCreates(sys, key, title, messages, delay, opens, policy, batchLimit);
    hide PlanSession, Inv, Used, Put, Apply;
    var told := sys.(named := sys.named + Sessions(archive), clock := sys.clock + delay);
    ToldKeeps(sys, key, archive, delay, policy, batchLimit);
    if opens.Some? && opens.value != "" && opens.value !in sys.owner {
      OpenKeeps(told, key, title, messages, sys.clock, opens.value, policy, batchLimit);
    }
  }

  lemma WakeCreates(sys: Sys, key: Key, title: string, messages: nat, delay: nat, opens: Option<Session>, policy: Policy, batchLimit: nat)
    requires messages <= batchLimit && PlanSession(sys.pool, key, sys.clock + delay, policy, sys.dead).Create?
    ensures var archive := PlanSession(sys.pool, key, sys.clock + delay, policy, sys.dead).archive;
            var told := sys.(named := sys.named + Sessions(archive), clock := sys.clock + delay);
            Apply(sys, Wake(key, title, messages, delay, opens), policy, batchLimit) ==
              if opens == None || opens.value == "" || opens.value in sys.owner then told
              else
                told.(pool := Put(sys.pool, key, Used(Get(sys.pool, key), opens.value, title, sys.clock, messages)),
                      owner := sys.owner[opens.value := key],
                      charged := sys.charged[opens.value := messages])
  {
    hide PlanSession, Used, Put, Get;
  }

  lemma {:induction false} ToldKeeps(sys: Sys, key: Key, archive: seq<Archived>, delay: nat, policy: Policy, batchLimit: nat)
    requires Inv(sys, policy, batchLimit)
    requires archive != [] ==>
               && key in sys.pool.slots && sys.pool.slots[key].Entry? && Spent(sys.pool.slots[key], sys.clock + delay, policy)
               && Sessions(archive) == {sys.pool.slots[key].session}
    ensures Inv(sys.(named := sys.named + Sessions(archive), clock := sys.clock + delay), policy, batchLimit)
  {
    hide Table.Valid;
    var told := sys.(named := sys.named + Sessions(archive), clock := sys.clock + delay);
    if archive == [] { assert Sessions(archive) == {}; }
    forall k | k in told.pool.slots
      ensures GoodSlot(told, k, told.pool.slots[k])
      ensures told.pool.slots[k].session in told.named ==> Spent(told.pool.slots[k], told.clock, policy)
    {
      assert GoodSlot(sys, k, sys.pool.slots[k]);
      if archive != [] { assert GoodSlot(sys, key, sys.pool.slots[key]); }
    }
  }

  lemma {:induction false} OpenKeeps(sys: Sys, key: Key, title: string, messages: nat, now: int, session: Session, policy: Policy, batchLimit: nat)
    requires Inv(sys, policy, batchLimit) && messages <= batchLimit && session != "" && session !in sys.owner
    ensures Inv(sys.(pool := Put(sys.pool, key, Used(Get(sys.pool, key), session, title, now, messages)),
                     owner := sys.owner[session := key], charged := sys.charged[session := messages]), policy, batchLimit)
  {
    var slot := Used(Get(sys.pool, key), session, title, now, messages);
    var sys' := sys.(pool := Put(sys.pool, key, slot), owner := sys.owner[session := key], charged := sys.charged[session := messages]);
    PutIsValid(sys.pool, key, slot);
    hide Table.Valid;
    if key in sys.pool.slots {
      assert GoodSlot(sys, key, sys.pool.slots[key]);
    }
    forall k | k in sys'.pool.slots
      ensures GoodSlot(sys', k, sys'.pool.slots[k])
      ensures sys'.pool.slots[k].session in sys'.named ==> Spent(sys'.pool.slots[k], sys'.clock, policy)
    {
      if k != key {
        assert GoodSlot(sys, k, sys.pool.slots[k]);
      }
    }
  }

  /** A sweep names a session only as it retires or evicts its topic. */
  lemma {:induction false} SweepNames(pool: Pool, now: int, policy: Policy, a: Archived)
    requires pool.Valid() && a in Sweep(pool, now, policy).archive
    ensures a.key in pool.slots && pool.slots[a.key].Entry? && pool.slots[a.key].session == a.session
    ensures var s := Sweep(pool, now, policy).pool; a.key !in s.slots || (s.slots[a.key].Entry? && s.slots[a.key].archived)
  {
    hide Sweep, Forgotten, Quiet;
    ArchiveIsExact(pool, now, policy, a);
    DropIsExact(pool, now, policy);
    QuietIsEntry(pool.slots[a.key], now, policy);
  }

  lemma {:induction false} SweepKeeps(sys: Sys, policy: Policy, batchLimit: nat)
    requires Inv(sys, policy, batchLimit)
    ensures Inv(Apply(sys, SweepNow, policy, batchLimit), policy, batchLimit)
  {
    hide Table.Valid, Sweep;
    var s := Sweep(sys.pool, sys.clock, policy);
    var sys' := Apply(sys, SweepNow, policy, batchLimit);
    DropIsExact(sys.pool, sys.clock, policy);
    forall x | x in Sessions(s.archive)
      ensures x in sys.owner && (sys.owner[x] in s.pool.slots ==> s.pool.slots[sys.owner[x]].Entry? && s.pool.slots[sys.owner[x]].archived)
    {
      var a :| a in s.archive && a.session == x;
      SweepNames(sys.pool, sys.clock, policy, a);
      assert GoodSlot(sys, a.key, sys.pool.slots[a.key]);
    }
    forall k | k in s.pool.slots
      ensures GoodSlot(sys', k, s.pool.slots[k])
      ensures s.pool.slots[k].session in sys'.named ==> Spent(s.pool.slots[k], sys'.clock, policy)
    {
      assert GoodSlot(sys, k, sys.pool.slots[k]);
    }
  }

  lemma {:induction false} IdleStepKeeps(sys: Sys, a: Action, policy: Policy, batchLimit: nat)
    requires Inv(sys, policy, batchLimit) && (a.Wait? || a.Lose?)
    ensures Inv(Apply(sys, a, policy, batchLimit), policy, batchLimit)
  {
    hide Table.Valid;
    assert forall k :: k in sys.pool.slots ==> GoodSlot(sys, k, sys.pool.slots[k]);
  }

  lemma NamedGrows(sys: Sys, a: Action, policy: Policy, batchLimit: nat)
    ensures sys.named <= Apply(sys, a, policy, batchLimit).named
  {
    hide PlanSession, Sweep, Used, Put;
  }

  /** A session keeps its topic. */
  lemma OwnersStay(sys: Sys, a: Action, policy: Policy, batchLimit: nat)
    ensures forall s :: s in sys.owner ==> s in Apply(sys, a, policy, batchLimit).owner && Apply(sys, a, policy, batchLimit).owner[s] == sys.owner[s]
  {
    hide PlanSession, Sweep, Used, Put;
  }

  lemma {:induction false} StepKeeps(sys: Sys, a: Action, policy: Policy, batchLimit: nat)
    requires Inv(sys, policy, batchLimit)
    ensures Inv(Apply(sys, a, policy, batchLimit), policy, batchLimit) && sys.named <= Apply(sys, a, policy, batchLimit).named
  {
    hide Inv, PlanSession, Sweep, Used, Put;
    NamedGrows(sys, a, policy, batchLimit);
    match a
    case Wait(ms) => IdleStepKeeps(sys, a, policy, batchLimit);
    case Lose(session) => IdleStepKeeps(sys, a, policy, batchLimit);
    case SweepNow => SweepKeeps(sys, policy, batchLimit);
    case Wake(key, title, messages, delay, opens) =>
      if messages <= batchLimit {
        if PlanSession(sys.pool, key, sys.clock + delay, policy, sys.dead).Reuse? {
          ReuseKeeps(sys, key, title, messages, delay, policy, batchLimit);
        } else {
          CreateKeeps(sys, key, title, messages, delay, opens, policy, batchLimit);
        }
      }
  }

  lemma {:induction false} RunKeeps(sys: Sys, run: seq<Action>, policy: Policy, batchLimit: nat)
    requires Inv(sys, policy, batchLimit)
    ensures Inv(Exec(sys, run, policy, batchLimit), policy, batchLimit) && sys.named <= Exec(sys, run, policy, batchLimit).named
    decreases |run|
  {
    hide Inv, Apply;
    if run != [] {
      StepKeeps(sys, run[0], policy, batchLimit);
      RunKeeps(Apply(sys, run[0], policy, batchLimit), run[1..], policy, batchLimit);
    }
  }

  // ---------------------------------------------------------------- what every run obeys

  /** Two topics never own the same session. */
  lemma {:induction false} TopicsOwnTheirSessions(run: seq<Action>, policy: Policy, batchLimit: nat, k: Key, l: Key)
    requires var pool := Exec(START, run, policy, batchLimit).pool; k in pool.slots && l in pool.slots && k != l
    ensures var pool := Exec(START, run, policy, batchLimit).pool;
            pool.slots[k].Entry? && pool.slots[l].Entry? && pool.slots[k].session != pool.slots[l].session
  {
    RunKeeps(START, run, policy, batchLimit);
    var sys := Exec(START, run, policy, batchLimit);
    assert GoodSlot(sys, k, sys.pool.slots[k]) && GoodSlot(sys, l, sys.pool.slots[l]);
  }

  /** Messages charged to one session over the whole run stay within the wake budget and one batch. */
  lemma {:induction false} ChargesAreBounded(run: seq<Action>, policy: Policy, batchLimit: nat, session: Session)
    requires session in Exec(START, run, policy, batchLimit).charged
    ensures Exec(START, run, policy, batchLimit).charged[session] <= ChargeLimit(policy, batchLimit)
  {
    RunKeeps(START, run, policy, batchLimit);
  }

  /** A session once named for archiving, by a plan or by a sweep, is never reused, however the run goes on. */
  lemma {:induction false} NamedIsNeverReused(run: seq<Action>, more: seq<Action>, policy: Policy, batchLimit: nat, session: Session, key: Key, delay: nat)
    requires session in Exec(START, run, policy, batchLimit).named
    ensures var sys := Exec(Exec(START, run, policy, batchLimit), more, policy, batchLimit);
            PlanSession(sys.pool, key, sys.clock + delay, policy, sys.dead) != Reuse(session)
  {
    RunKeeps(START, run, policy, batchLimit);
    var mid := Exec(START, run, policy, batchLimit);
    RunKeeps(mid, more, policy, batchLimit);
    var sys := Exec(mid, more, policy, batchLimit);
    PlanMeans(sys, key, sys.clock + delay, policy, batchLimit);
  }

  // ---------------------------------------------------------------- the bound is reached

  /** One-message wakes of one topic. */
  function Singles(n: nat): seq<Action> {
    if n == 0 then [] else Singles(n - 1) + [Wake("t", "", 1, 0, Some("s"))]
  }

  /** All but one wake of the budget for one message each, then a full batch. */
  function FullRun(policy: Policy, batchLimit: nat): seq<Action> {
    Singles(ChargeLimit(policy, batchLimit) - batchLimit) + [Wake("t", "", batchLimit, 0, Some("s"))]
  }

  /** The topic's session has served n messages, all of them just now. */
  predicate Served(sys: Sys, n: nat) {
    if n == 0 then sys == START
    else
      && sys.clock == 0 && sys.dead == {} && "s" in sys.owner && "s" in sys.charged && sys.charged["s"] == n
      && "t" in sys.pool.slots && sys.pool.slots["t"].Entry?
      && var e := sys.pool.slots["t"];
         e.session == "s" && !e.archived && e.wakes == Some(n) && e.createdAt == Some(0) && e.lastUsedAt == Some(0)
  }

  lemma {:induction false} ServesMore(sys: Sys, n: nat, messages: nat, policy: Policy, batchLimit: nat)
    requires Served(sys, n) && 1 <= messages <= batchLimit && (n > 0 ==> n < policy.maxSessionWakes)
    ensures Served(Apply(sys, Wake("t", "", messages, 0, Some("s")), policy, batchLimit), n + messages)
  {
  }

  lemma {:induction false} ExecOneMore(sys: Sys, run: seq<Action>, a: Action, policy: Policy, batchLimit: nat)
    ensures Exec(sys, run + [a], policy, batchLimit) == Apply(Exec(sys, run, policy, batchLimit), a, policy, batchLimit)
    decreases |run|
  {
    hide Apply;
    if run == [] {
      assert run + [a] == [a] && [a][1..] == [];
      assert Exec(sys, [a], policy, batchLimit) == Exec(Apply(sys, a, policy, batchLimit), [], policy, batchLimit);
    } else {
      assert (run + [a])[1..] == run[1..] + [a];
      ExecOneMore(Apply(sys, run[0], policy, batchLimit), run[1..], a, policy, batchLimit);
    }
  }

  lemma {:induction false} SinglesServe(n: nat, policy: Policy, batchLimit: nat)
    requires batchLimit >= 1 && (n > 0 ==> n <= policy.maxSessionWakes)
    ensures Served(Exec(START, Singles(n), policy, batchLimit), n)
  {
    hide Apply, Served;
    if n == 0 {
      StartServed();
    } else {
      SinglesServe(n - 1, policy, batchLimit);
      ServesMore(Exec(START, Singles(n - 1), policy, batchLimit), n - 1, 1, policy, batchLimit);
      ExecOneMore(START, Singles(n - 1), Wake("t", "", 1, 0, Some("s")), policy, batchLimit);
    }
  }

  lemma StartServed()
    ensures Served(START, 0)
  {
  }

  /** For every budget and batch limit there is a run that charges exactly the bound to one session. */
  lemma {:induction false} ChargeLimitIsReached(policy: Policy, batchLimit: nat)
    requires batchLimit >= 1
    ensures var sys := Exec(START, FullRun(policy, batchLimit), policy, batchLimit);
            "s" in sys.charged && sys.charged["s"] == ChargeLimit(policy, batchLimit)
  {
    var n := ChargeLimit(policy, batchLimit) - batchLimit;
    SinglesServe(n, policy, batchLimit);
    ServesMore(Exec(START, Singles(n), policy, batchLimit), n, batchLimit, policy, batchLimit);
    hide Apply, Exec;
    ExecOneMore(START, Singles(n), Wake("t", "", batchLimit, 0, Some("s")), policy, batchLimit);
  }
}
