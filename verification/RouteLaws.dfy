/**
 * What the routing table promises over whole runs (routes.js): bounded sizes, answers that name the asker,
 * forgotten sessions, and sweeps that no lookup can observe.
 */
module RouteLaws {
  import opened Options
  import opened ObjectKeys
  import opened RouteTable

  // ---------------------------------------------------------------- eviction

  /** Eviction never removes a route used more recently than one it keeps, and removes only what it must. */
  lemma {:induction false} EvictionTakesTheOldest(routes: Routes, max: nat, gone: Key, left: Key)
    requires routes.Valid() && gone in Overflow(routes, max)
    requires left in Remove(routes, Set(Overflow(routes, max))).slots
    ensures gone in routes.slots && left in routes.slots
    ensures var used := (e: Entry) => if e.Route? && e.lastAt.Some? then e.lastAt.value else 0;
            used(routes.slots[gone]) <= used(routes.slots[left])
    ensures |Remove(routes, Set(Overflow(routes, max))).keys| == max
  {
    var drop := Overflow(routes, max);
    OverflowSize(routes, max);
    SortIsDistinct(routes.keys, LastUses(routes));
    FirstsRankLow(routes.keys, LastUses(routes), |drop|, gone, left);
  }

  // ---------------------------------------------------------------- a sweep cannot be observed by lookups

  /** What the bridge may do with the table between two sends. */
  datatype Step = Wait(ms: nat) | Lookup(thread: string, replyTo: string) | SweepNow | Drop(session: Session)

  /** The answers that a run of steps gets. */
  function Answers(routes: Routes, now: int, steps: seq<Step>, policy: Policy): seq<Option<Hit>>
    decreases |steps|
  {
    if steps == [] then []
    else
      match steps[0]
      case Wait(ms) => Answers(routes, now + ms, steps[1..], policy)
      case Lookup(thread, replyTo) =>
        var (routes', hit) := RouteFor(routes, thread, replyTo, now, policy);
        [hit] + Answers(routes', now, steps[1..], policy)
      case SweepNow => Answers(Sweep(routes, now, policy), now, steps[1..], policy)
      case Drop(session) => Answers(Forget(routes, session), now, steps[1..], policy)
  }

  /** `part` is the table without some routes that nothing can bring back to life. */
  ghost predicate SameLive(routes: Routes, part: Routes, now: int, policy: Policy) {
    && routes.Valid() && |routes.keys| <= policy.max
    && part.slots.Keys <= routes.slots.Keys
    && part.keys == Pick(routes.keys, part.slots.Keys)
    && (forall k :: k in part.slots ==> part.slots[k] == routes.slots[k])
    && forall k :: k in routes.slots && k !in part.slots ==> !Live(routes.slots[k], now, policy)
  }

  lemma {:induction false} SameFirst(keys: seq<Key>, routes: Routes, part: Routes, id: string, now: int, policy: Policy)
    requires part.slots.Keys <= routes.slots.Keys
    requires forall k :: k in part.slots ==> part.slots[k] == routes.slots[k]
    requires forall k :: k in routes.slots && k !in part.slots ==> !Live(routes.slots[k], now, policy)
    ensures FirstHolding(keys, routes, id, now, policy) == FirstHolding(Pick(keys, part.slots.Keys), part, id, now, policy)
  {
    hide Live, Holds, Pick;
    if keys == [] {
      PickNone(keys, part.slots.Keys);
    } else {
      var picked, rest := Pick(keys, part.slots.Keys), Pick(keys[1..], part.slots.Keys);
      SameFirst(keys[1..], routes, part, id, now, policy);
      PickFirst(keys, part.slots.Keys);
      NoneLives(now, policy);
      if keys[0] in part.slots {
        assert picked[0] == keys[0] && picked[1..] == rest;
      } else {
        assert picked == rest && !Live(Get(routes, keys[0]), now, policy);
      }
    }
  }

  lemma NoneLives(now: int, policy: Policy)
    ensures !Live(Malformed, now, policy)
  {
  }

  lemma {:induction false} PickFirst(keys: seq<Key>, chosen: set<Key>)
    requires keys != []
    ensures Pick(keys, chosen) == (if keys[0] in chosen then [keys[0]] else []) + Pick(keys[1..], chosen)
  {
    if |keys| > 1 {
      var before, last := keys[..|keys| - 1], keys[|keys| - 1];
      PickFirst(before, chosen);
      assert keys[1..][..|keys[1..]| - 1] == before[1..] && keys[1..][|keys[1..]| - 1] == last;
    } else {
      assert keys[..0] == [] && keys[1..] == [];
    }
  }

  lemma {:induction false} SameChoice(routes: Routes, part: Routes, thread: string, replyTo: string, now: int, policy: Policy)
    requires SameLive(routes, part, now, policy)
    ensures Choose(routes, thread, replyTo, now, policy) == Choose(part, thread, replyTo, now, policy)
    ensures Choose(routes, thread, replyTo, now, policy).Some? ==>
              var k := Choose(routes, thread, replyTo, now, policy).value.0; k in part.slots && k in routes.slots && routes.slots[k].Route?
  {
    NoneLives(now, policy);
    hide FirstHolding;
    SameFirst(routes.keys, routes, part, replyTo, now, policy);
    assert forall k :: k in part.keys ==> k in part.slots;
    hide Pick;
  }

  lemma SameSlots(routes: Routes, part: Routes, now: int, policy: Policy)
    requires SameLive(routes, part, now, policy)
    ensures forall k :: k in part.slots && k in routes.slots ==> part.slots[k] == routes.slots[k]
  {
  }

  lemma {:induction false} LookupKeepsSame(routes: Routes, part: Routes, thread: string, replyTo: string, now: int, policy: Policy)
    requires SameLive(routes, part, now, policy)
    ensures RouteFor(routes, thread, replyTo, now, policy).1 == RouteFor(part, thread, replyTo, now, policy).1
    ensures SameLive(RouteFor(routes, thread, replyTo, now, policy).0, RouteFor(part, thread, replyTo, now, policy).0, now, policy)
  {
    SameChoice(routes, part, thread, replyTo, now, policy);
    hide Choose, Live, Touch, SameLive;
    assert forall k :: k in part.slots && k in routes.slots ==> part.slots[k] == routes.slots[k] by { SameSlots(routes, part, now, policy); }
    match Choose(routes, thread, replyTo, now, policy) {
      case None =>
      case Some((k, matched)) =>
        TouchKeepsSame(routes, part, k, now, policy);
    }
  }

  lemma {:induction false} TouchKeepsSame(routes: Routes, part: Routes, key: Key, now: int, policy: Policy)
    requires SameLive(routes, part, now, policy) && key in part.slots && key in routes.slots && routes.slots[key].Route?
    ensures part.slots[key].Route? && SameLive(Touch(routes, key, now), Touch(part, key, now), now, policy)
  {
    hide Live, Pick;
    assert Touch(part, key, now).slots.Keys == part.slots.Keys;
  }

  /** Removing the same routes, or routes that are not live anyway. */
  lemma {:induction false} RemoveKeepsSame(routes: Routes, part: Routes, now: int, policy: Policy, gone: set<Key>, goneToo: set<Key>)
    requires SameLive(routes, part, now, policy)
    requires forall k :: k in part.slots ==> (k in gone <==> k in goneToo)
    ensures SameLive(Remove(routes, gone), Remove(part, goneToo), now, policy)
  {
    hide Live, Pick, Table.Valid;
    RemoveIsValid(routes, gone);
    ShorterPick(routes.keys, routes.slots.Keys - gone);
    PickCommutes(routes.keys, routes.slots.Keys, part.slots.Keys, gone, goneToo);
  }

  lemma PickCommutes(keys: seq<Key>, all_: set<Key>, part: set<Key>, gone: set<Key>, goneToo: set<Key>)
    requires part <= all_ && forall k :: k in part ==> (k in gone <==> k in goneToo)
    ensures Pick(Pick(keys, part), part - goneToo) == Pick(Pick(keys, all_ - gone), part - goneToo)
  {
    hide Pick;
    PickTwice(keys, part, part - goneToo);
    PickTwice(keys, all_ - gone, part - goneToo);
    assert part * (part - goneToo) == part - goneToo == (all_ - gone) * (part - goneToo);
  }

  lemma {:induction false} ShorterPick(keys: seq<Key>, chosen: set<Key>)
    ensures |Pick(keys, chosen)| <= |keys|
  {
    if keys != [] {
      ShorterPick(keys[..|keys| - 1], chosen);
    }
  }

  /** Within the cap, a sweep is only the removal of what is not live. */
  lemma {:induction false} SweepWithinCap(routes: Routes, now: int, policy: Policy)
    requires routes.Valid() && |routes.keys| <= policy.max
    ensures Sweep(routes, now, policy) == Remove(routes, Stale(routes, now, policy))
  {
    var live := Remove(routes, Stale(routes, now, policy));
    ShorterPick(routes.keys, routes.slots.Keys - Stale(routes, now, policy));
    RemoveIsValid(routes, Stale(routes, now, policy));
    RemoveNothing(live);
  }

  lemma {:induction false} PartIsValid(routes: Routes, part: Routes, now: int, policy: Policy)
    requires SameLive(routes, part, now, policy)
    ensures part.Valid() && |part.keys| <= policy.max
  {
    PickKeepsDistinct(routes.keys, part.slots.Keys);
    ShorterPick(routes.keys, part.slots.Keys);
  }

  lemma {:induction false} SameAnswers(routes: Routes, part: Routes, now: int, steps: seq<Step>, policy: Policy)
    requires SameLive(routes, part, now, policy)
    ensures Answers(routes, now, steps, policy) == Answers(part, now, steps, policy)
    decreases |steps|
  {
    hide RouteFor, Sweep, Forget, Table.Valid, Pick;
    if steps != [] {
      match steps[0]
      case Wait(ms) =>
        SameAnswers(routes, part, now + ms, steps[1..], policy);
      case Lookup(thread, replyTo) =>
        LookupKeepsSame(routes, part, thread, replyTo, now, policy);
        SameAnswers(RouteFor(routes, thread, replyTo, now, policy).0, RouteFor(part, thread, replyTo, now, policy).0, now, steps[1..], policy);
      case SweepNow =>
        PartIsValid(routes, part, now, policy);
        SweepWithinCap(routes, now, policy);
        SweepWithinCap(part, now, policy);
        RemoveKeepsSame(routes, part, now, policy, Stale(routes, now, policy), Stale(part, now, policy));
        SameAnswers(Sweep(routes, now, policy), Sweep(part, now, policy), now, steps[1..], policy);
      case Drop(session) =>
        ForgetKeepsSame(routes, part, now, policy, session);
        SameAnswers(Forget(routes, session), Forget(part, session), now, steps[1..], policy);
    }
  }

  lemma {:induction false} ForgetKeepsSame(routes: Routes, part: Routes, now: int, policy: Policy, session: Session)
    requires SameLive(routes, part, now, policy)
    ensures SameLive(Forget(routes, session), Forget(part, session), now, policy)
  {
    if session != "" {
      RemoveKeepsSame(routes, part, now, policy, Owned(routes, session), Owned(part, session));
    }
  }

  /** Within its cap a table answers every later lookup, at that time and at every later time, as if it had not been swept. */
  lemma {:induction false} SweepIsInvisible(routes: Routes, now: int, steps: seq<Step>, policy: Policy)
    requires routes.Valid() && |routes.keys| <= policy.max
    ensures Answers(Sweep(routes, now, policy), now, steps, policy) == Answers(routes, now, steps, policy)
  {
    var part := Sweep(routes, now, policy);
    SweepWithinCap(routes, now, policy);
    PickAll(routes.keys, routes.slots.Keys);
    assert SameLive(routes, part, now, policy);
    SameAnswers(routes, part, now, steps, policy);
  }

  const MINUTE: Policy := Policy(true, 60000, 10)

  /** One route, last used at time 0, that holds the id of one message. */
  function Expiring(): Routes {
    Table(["t"], map["t" := Route("t", "s", Some(["m1"]), Some(0), 0)])
  }

  lemma ExpiringIsSwept()
    ensures Expiring().Valid() && Sweep(Expiring(), 70000, MINUTE) == Table([], map[])
  {
    hide Sweep;
    SweepWithinCap(Expiring(), 70000, MINUTE);
    assert Stale(Expiring(), 70000, MINUTE) == {"t"};
    PickNone(Expiring().keys, Expiring().slots.Keys - {"t"});
  }

  lemma OnlyRouteAnswers(e: Entry, id: string, now: int, policy: Policy)
    requires policy.enabled && id != ""
    ensures RouteFor(Table(["t"], map["t" := e]), "", id, now, policy).1.Some? <==> Live(e, now, policy) && Holds(e, id)
  {
    var routes := Table(["t"], map["t" := e]);
    assert routes.keys[1..] == [];
    assert FirstHolding(routes.keys, routes, id, now, policy).Some? <==> Live(e, now, policy) && Holds(e, id);
  }

  /** A later send can tell: a route that expired but was not swept still hands its old message ids to its session. */
  lemma SweepIsVisibleToASend()
    ensures var swept := Sweep(Expiring(), 70000, MINUTE);
            RouteFor(Register(Expiring(), "t", "s", "m2", 70000, MINUTE), "", "m1", 70000, MINUTE).1 !=
            RouteFor(Register(swept, "t", "s", "m2", 70000, MINUTE), "", "m1", 70000, MINUTE).1
  {
    hide Sweep, Register, RouteFor;
    ExpiringIsSwept();
    var none: Routes := Table([], map[]);
    RegisterWithinCap(Expiring(), "t", "s", "m2", 70000, MINUTE);
    RegisterWithinCap(none, "t", "s", "m2", 70000, MINUTE);
    var kept := Route("t", "s", Some(["m1", "m2"]), Some(70000), 0);
    var anew := Route("t", "s", Some(["m2"]), Some(70000), 0);
    assert ["m1"] + ["m2"] == ["m1", "m2"] && [] + ["m2"] == ["m2"] && "m2" !in ["m1"];
    assert AddId(Some(["m1"]), "m2") == Some(["m1", "m2"]) && AddId(Some([]), "m2") == Some(["m2"]);
    assert Asked(Get(Expiring(), "t"), "t", "s", "m2", 70000) == kept;
    assert Asked(Get(none, "t"), "t", "s", "m2", 70000) == anew;
    assert Put(Expiring(), "t", kept) == Table(["t"], map["t" := kept]);
    assert Put(none, "t", anew) == Table(["t"], map["t" := anew]);
    assert kept.ids.value[0] == "m1";
    OnlyRouteAnswers(kept, "m1", 70000, MINUTE);
    OnlyRouteAnswers(anew, "m1", 70000, MINUTE);
  }

  lemma {:induction false} RegisterWithinCap(routes: Routes, thread: string, session: Session, id: string, now: int, policy: Policy)
    requires routes.Valid() && policy.enabled && thread != "" && session != ""
    requires |Put(routes, thread, Malformed).keys| <= policy.max
    ensures Register(routes, thread, session, id, now, policy) == Put(routes, thread, Asked(Get(routes, thread), thread, session, id, now))
  {
    var longer := Put(routes, thread, Asked(Get(routes, thread), thread, session, id, now));
    PutIsValid(routes, thread, Asked(Get(routes, thread), thread, session, id, now));
    RemoveNothing(longer);
  }

  // ---------------------------------------------------------------- runs with sends

  datatype Action = Send(thread: string, session: Session, id: string) | Other(step: Step)

  /** The table, the time, and what every send so far said: the last asker of each thread and all that was sent. */
  datatype Sys = Sys(routes: Routes, clock: int, asker: map<string, Session>, sent: set<(string, Session, string)>)

  function Apply(sys: Sys, a: Action, policy: Policy): Sys {
    match a
    case Send(thread, session, id) =>
      if !policy.enabled || thread == "" || session == "" then sys
      else
        sys.(routes := Register(sys.routes, thread, session, id, sys.clock, policy),
             asker := sys.asker[thread := session],
             sent := sys.sent + {(thread, session, id)})
    case Other(Wait(ms)) => sys.(clock := sys.clock + ms)
    case Other(Lookup(thread, replyTo)) => sys.(routes := RouteFor(sys.routes, thread, replyTo, sys.clock, policy).0)
    case Other(SweepNow) => sys.(routes := Sweep(sys.routes, sys.clock, policy))
    case Other(Drop(session)) => sys.(routes := Forget(sys.routes, session))
  }

  function Exec(sys: Sys, run: seq<Action>, policy: Policy): Sys
    decreases |run|
  {
    if run == [] then sys else Exec(Apply(sys, run[0], policy), run[1..], policy)
  }

  const START: Sys := Sys(Table([], map[]), 0, map[], {})

  /** A route of a table that started empty. */
  ghost predicate GoodRoute(sys: Sys, key: Key, e: Entry) {
    && e.Route? && e.thread == key && key != "" && e.session != ""
    && key in sys.asker && sys.asker[key] == e.session
    && e.lastAt.Some? && e.lastAt.value <= sys.clock
    && e.ids.Some? && |e.ids.value| <= MAX_IDS
    && forall id :: id in e.ids.value ==> id != "" && (key, e.session, id) in sys.sent
  }

  ghost predicate Inv(sys: Sys, policy: Policy) {
    && sys.routes.Valid() && |sys.routes.keys| <= policy.max
    && forall k :: k in sys.routes.slots ==> GoodRoute(sys, k, sys.routes.slots[k])
  }

  lemma {:induction false} AddIdMeans(ids: seq<string>, id: string)
    requires |ids| <= MAX_IDS
    ensures AddId(Some(ids), id).Some? && |AddId(Some(ids), id).value| <= MAX_IDS
    ensures forall x :: x in AddId(Some(ids), id).value ==> x in ids || (x == id && id != "")
  {
    var longer := ids + [id];
    assert |longer| > MAX_IDS ==> forall x :: x in longer[|longer| - MAX_IDS..] ==> x in longer;
  }

  lemma {:induction false} AskedIsGood(sys: Sys, thread: string, session: Session, id: string, policy: Policy)
    requires Inv(sys, policy) && thread != "" && session != ""
    ensures GoodRoute(sys.(asker := sys.asker[thread := session], sent := sys.sent + {(thread, session, id)}), thread,
                      Asked(Get(sys.routes, thread), thread, session, id, sys.clock))
  {
    hide AddId, Table.Valid;
    AddIdMeans([], id);
    if thread in sys.routes.slots {
      assert GoodRoute(sys, thread, sys.routes.slots[thread]);
      AddIdMeans(sys.routes.slots[thread].ids.value, id);
    }
  }

  lemma {:induction false} SendKeeps(sys: Sys, thread: string, session: Session, id: string, policy: Policy)
    requires Inv(sys, policy)
    ensures Inv(Apply(sys, Send(thread, session, id), policy), policy)
  {
    if policy.enabled && thread != "" && session != "" {
      AskedIsGood(sys, thread, session, id, policy);
      hide Asked;
      WrittenKeeps(sys, thread, session, id, Asked(Get(sys.routes, thread), thread, session, id, sys.clock), policy);
    }
  }

  lemma {:induction false} WrittenKeeps(sys: Sys, thread: string, session: Session, id: string, entry: Entry, policy: Policy)
    requires Inv(sys, policy)
    requires GoodRoute(sys.(asker := sys.asker[thread := session], sent := sys.sent + {(thread, session, id)}), thread, entry)
    ensures var longer := Put(sys.routes, thread, entry);
            Inv(Sys(Remove(longer, Set(Overflow(longer, policy.max))), sys.clock, sys.asker[thread := session], sys.sent + {(thread, session, id)}), policy)
  {
    hide Overflow, Pick, Table.Valid, GoodRoute;
    var longer := Put(sys.routes, thread, entry);
    var sys' := Sys(Remove(longer, Set(Overflow(longer, policy.max))), sys.clock, sys.asker[thread := session], sys.sent + {(thread, session, id)});
    PutIsValid(sys.routes, thread, entry);
    OverflowSize(longer, policy.max);
    RemoveIsValid(longer, Set(Overflow(longer, policy.max)));
    forall k | k in sys'.routes.slots
      ensures GoodRoute(sys', k, sys'.routes.slots[k])
    {
      if k == thread {
        SameGood(sys.(asker := sys'.asker, sent := sys'.sent), sys', k, entry);
      } else {
        OtherGood(sys, sys', k, sys.routes.slots[k]);
      }
    }
  }

  lemma OtherGood(sys: Sys, sys': Sys, key: Key, e: Entry)
    requires GoodRoute(sys, key, e) && sys.clock <= sys'.clock && sys.sent <= sys'.sent
    requires key in sys.asker ==> key in sys'.asker && sys'.asker[key] == sys.asker[key]
    ensures GoodRoute(sys', key, e)
  {
  }

  lemma SameGood(sys: Sys, sys': Sys, key: Key, e: Entry)
    requires GoodRoute(sys, key, e) && sys.asker == sys'.asker && sys.sent == sys'.sent && sys.clock <= sys'.clock
    ensures GoodRoute(sys', key, e)
  {
  }

  lemma {:induction false} LookupKeeps(sys: Sys, thread: string, replyTo: string, policy: Policy)
    requires Inv(sys, policy)
    ensures Inv(Apply(sys, Other(Lookup(thread, replyTo)), policy), policy)
  {
    hide Choose;
    var sys' := Apply(sys, Other(Lookup(thread, replyTo)), policy);
    LookupTouches(sys.routes, thread, replyTo, sys.clock, policy);
    assert sys'.routes.Valid();
    hide Table.Valid;
    forall k | k in sys'.routes.slots
      ensures GoodRoute(sys', k, sys'.routes.slots[k])
    {
      assert GoodRoute(sys, k, sys.routes.slots[k]);
    }
  }

  lemma LookupTouches(routes: Routes, thread: string, replyTo: string, now: int, policy: Policy)
    ensures var routes' := RouteFor(routes, thread, replyTo, now, policy).0;
            && routes'.keys == routes.keys && routes'.slots.Keys == routes.slots.Keys
            && forall k :: k in routes.slots ==>
                 routes'.slots[k] == routes.slots[k] ||
                 (routes.slots[k].Route? && routes'.slots[k] == routes.slots[k].(lastAt := Some(now), hits := routes.slots[k].hits + 1))
  {
  }

  lemma {:induction false} RemoveKeeps(sys: Sys, gone: set<Key>, policy: Policy)
    requires Inv(sys, policy)
    ensures Inv(sys.(routes := Remove(sys.routes, gone)), policy)
  {
    RemoveIsValid(sys.routes, gone);
    ShorterPick(sys.routes.keys, sys.routes.slots.Keys - gone);
    hide Table.Valid, Pick;
    var sys' := sys.(routes := Remove(sys.routes, gone));
    assert forall k :: k in sys'.routes.slots ==> GoodRoute(sys, k, sys.routes.slots[k]);
  }

  lemma {:induction false} StepKeeps(sys: Sys, a: Action, policy: Policy)
    requires Inv(sys, policy)
    ensures Inv(Apply(sys, a, policy), policy)
  {
    match a
    case Send(thread, session, id) => SendKeeps(sys, thread, session, id, policy);
    case Other(Wait(ms)) =>
      assert forall k :: k in sys.routes.slots ==> GoodRoute(sys, k, sys.routes.slots[k]);
    case Other(Lookup(thread, replyTo)) => LookupKeeps(sys, thread, replyTo, policy);
    case Other(SweepNow) =>
      SweepWithinCap(sys.routes, sys.clock, policy);
      RemoveKeeps(sys, Stale(sys.routes, sys.clock, policy), policy);
    case Other(Drop(session)) => RemoveKeeps(sys, Owned(sys.routes, session), policy);
  }

  lemma {:induction false} RunKeeps(sys: Sys, run: seq<Action>, policy: Policy)
    requires Inv(sys, policy)
    ensures Inv(Exec(sys, run, policy), policy)
    decreases |run|
  {
    hide Inv, Apply;
    if run != [] {
      StepKeeps(sys, run[0], policy);
      RunKeeps(Apply(sys, run[0], policy), run[1..], policy);
    }
  }

  /** In every run the table stays within its cap and a route within its ids. */
  lemma {:induction false} SizesAreBounded(run: seq<Action>, policy: Policy, key: Key)
    ensures var routes := Exec(START, run, policy).routes;
            |routes.keys| <= policy.max && (key in routes.slots ==> routes.slots[key].Route? && |routes.slots[key].ids.Or([])| <= MAX_IDS)
  {
    RunKeeps(START, run, policy);
    var sys := Exec(START, run, policy);
    assert key in sys.routes.slots ==> GoodRoute(sys, key, sys.routes.slots[key]);
  }

  /** An answer names the last session that asked on its thread; matched by a reply, that session sent the message replied to. */
  ghost predicate AnswerIsRight(sys: Sys, hit: Hit, thread: string, replyTo: string) {
    && hit.key in sys.asker && hit.session == sys.asker[hit.key]
    && if hit.matched == ByThread then hit.key == thread else replyTo != "" && (hit.key, hit.session, replyTo) in sys.sent
  }

  lemma {:induction false} LookupIsRight(sys: Sys, policy: Policy, thread: string, replyTo: string)
    requires Inv(sys, policy)
    ensures var hit := RouteFor(sys.routes, thread, replyTo, sys.clock, policy).1;
            hit.Some? ==> AnswerIsRight(sys, hit.value, thread, replyTo)
  {
    match Choose(sys.routes, thread, replyTo, sys.clock, policy)
    case None =>
    case Some((k, matched)) =>
      if k in sys.routes.slots { assert GoodRoute(sys, k, sys.routes.slots[k]); }
  }

  /** In every run every answer is right. */
  lemma {:induction false} AnswersNameTheAsker(run: seq<Action>, policy: Policy, thread: string, replyTo: string)
    ensures var sys := Exec(START, run, policy);
            var hit := RouteFor(sys.routes, thread, replyTo, sys.clock, policy).1;
            hit.Some? ==> AnswerIsRight(sys, hit.value, thread, replyTo)
  {
    RunKeeps(START, run, policy);
    LookupIsRight(Exec(START, run, policy), policy, thread, replyTo);
  }

  // ---------------------------------------------------------------- a session that is gone

  ghost predicate Unowned(routes: Routes, session: Session) {
    forall k :: k in routes.slots && routes.slots[k].Route? ==> routes.slots[k].session != session
  }

  predicate SendsFor(run: seq<Action>, session: Session) {
    exists i :: 0 <= i < |run| && run[i].Send? && run[i].session == session
  }

  lemma {:induction false} StaysUnowned(sys: Sys, run: seq<Action>, policy: Policy, session: Session)
    requires Unowned(sys.routes, session) && !SendsFor(run, session)
    ensures Unowned(Exec(sys, run, policy).routes, session)
    decreases |run|
  {
    if run != [] {
      assert run[0] == run[0];
      StepUnowned(sys, run[0], policy, session);
      hide Apply, Unowned;
      assert !SendsFor(run[1..], session) by {
        assert forall i :: 0 <= i < |run[1..]| ==> run[1..][i] == run[i + 1];
      }
      StaysUnowned(Apply(sys, run[0], policy), run[1..], policy, session);
    }
  }

  lemma {:induction false} StepUnowned(sys: Sys, a: Action, policy: Policy, session: Session)
    requires Unowned(sys.routes, session) && !(a.Send? && a.session == session)
    ensures Unowned(Apply(sys, a, policy).routes, session)
  {
    hide Overflow, Choose, Stale, Owned;
    match a
    case Send(_, _, _) =>
    case Other(Wait(_)) =>
    case Other(Lookup(thread, replyTo)) => LookupTouches(sys.routes, thread, replyTo, sys.clock, policy);
    case Other(SweepNow) =>
    case Other(Drop(_)) =>
  }

  /** After forgetRoutesForSession no lookup returns the session, until it sends again. */
  lemma {:induction false} ForgottenStaysForgotten(sys: Sys, session: Session, run: seq<Action>, policy: Policy, thread: string, replyTo: string)
    requires session != "" && !SendsFor(run, session)
    ensures var after := Exec(Apply(sys, Other(Drop(session)), policy), run, policy);
            var hit := RouteFor(after.routes, thread, replyTo, after.clock, policy).1;
            hit.Some? ==> hit.value.session != session
  {
    var start := Apply(sys, Other(Drop(session)), policy);
    assert Unowned(start.routes, session);
    StaysUnowned(start, run, policy, session);
  }

  /** A send is answered: a lookup on its thread before the time to live runs out returns the sender. */
  lemma {:induction false} SendIsAnswered(sys: Sys, thread: string, session: Session, id: string, policy: Policy, later: nat, replyTo: string)
    requires Inv(sys, policy) && policy.enabled && policy.max >= 1 && thread != "" && session != "" && later <= policy.ttlMs
    ensures var after := Apply(sys, Send(thread, session, id), policy);
            RouteFor(after.routes, thread, replyTo, after.clock + later, policy).1 == Some(Hit(session, thread, ByThread))
  {
    var entry := Asked(Get(sys.routes, thread), thread, session, id, sys.clock);
    var longer := Put(sys.routes, thread, entry);
    assert entry.session == session && entry.lastAt == Some(sys.clock);
    NewestSurvives(sys, thread, entry, policy);
    hide Overflow, Asked;
    var routes := Apply(sys, Send(thread, session, id), policy).routes;
    assert thread in routes.slots && routes.slots[thread] == entry;
    assert Live(entry, sys.clock + later, policy);
  }

  /** The cap never evicts the route that was just written: among the most recent it is the last. */
  lemma {:induction false} NewestSurvives(sys: Sys, thread: string, entry: Entry, policy: Policy)
    requires Inv(sys, policy) && policy.max >= 1 && entry.Route? && entry.lastAt == Some(sys.clock)
    ensures thread !in Overflow(Put(sys.routes, thread, entry), policy.max)
  {
    var longer := Put(sys.routes, thread, entry);
    if thread !in sys.routes.slots && |longer.keys| > policy.max {
      var ranks := LastUses(longer);
      RanksAreOlder(sys, thread, entry, policy);
      assert thread !in sys.routes.keys;
      hide Inv, LastUses;
      SortedLast(sys.routes.keys, thread, ranks, |longer.keys| - policy.max);
    }
  }

  lemma RanksAreOlder(sys: Sys, thread: string, entry: Entry, policy: Policy)
    requires Inv(sys, policy) && entry.Route? && entry.lastAt == Some(sys.clock)
    ensures var ranks := LastUses(Put(sys.routes, thread, entry));
            forall k :: k in sys.routes.keys ==> Rank(ranks, k) <= Rank(ranks, thread)
  {
    forall k | k in sys.routes.keys
      ensures Rank(LastUses(Put(sys.routes, thread, entry)), k) <= Rank(LastUses(Put(sys.routes, thread, entry)), thread)
    {
      assert GoodRoute(sys, k, sys.routes.slots[k]);
    }
  }

  lemma {:induction false} SortedLast(keys: seq<Key>, key: Key, ranks: map<Key, int>, n: nat)
    requires key !in keys && n <= |keys| && NoDuplicates(keys) && forall k :: k in keys ==> Rank(ranks, k) <= Rank(ranks, key)
    ensures key !in SortByRank(keys + [key], ranks)[..n]
  {
    var sorted := SortByRank(keys, ranks);
    SortIsDistinct(keys, ranks);
    LastStaysLast(key, sorted, ranks);
    assert (keys + [key])[..|keys|] == keys;
    assert SortByRank(keys + [key], ranks) == sorted + [key];
    assert (sorted + [key])[..n] == sorted[..n];
  }

  lemma LastStaysLast(key: Key, sorted: seq<Key>, ranks: map<Key, int>)
    requires forall k :: k in sorted ==> Rank(ranks, k) <= Rank(ranks, key)
    ensures InsertByRank(key, sorted, ranks) == sorted + [key]
  {
    if sorted != [] { assert sorted[|sorted| - 1] in sorted; }
  }
}
