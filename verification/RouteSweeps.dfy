/**
 * When a sweep of the routing table can be observed by later sends (routes.js). Two tables, the swept and
 * the unswept one, are run side by side; they answer alike until a send revives a route that the sweep
 * had taken, because such a route hands its message ids on. Evictions are included: both tables lose the
 * same live routes.
 */
module RouteSweeps {
  import opened Options
  import opened ObjectKeys
  import opened RouteTable
  import opened RouteLaws

  /** The answers that a run of steps and sends gets. */
  function Replies(routes: Routes, now: int, run: seq<Action>, policy: Policy): seq<Option<Hit>>
    decreases |run|
  {
    if run == [] then []
    else
      match run[0]
      case Send(thread, session, id) => Replies(Register(routes, thread, session, id, now, policy), now, run[1..], policy)
      case Other(Wait(ms)) => Replies(routes, now + ms, run[1..], policy)
      case Other(Lookup(thread, replyTo)) =>
        var (routes', hit) := RouteFor(routes, thread, replyTo, now, policy);
        [hit] + Replies(routes', now, run[1..], policy)
      case Other(SweepNow) => Replies(Sweep(routes, now, policy), now, run[1..], policy)
      case Other(Drop(session)) => Replies(Forget(routes, session), now, run[1..], policy)
  }

  /** A send on this thread by this session would bring back message ids that a sweep at time `since` took away. */
  predicate Revives(routes: Routes, since: int, thread: string, session: Session, policy: Policy) {
    thread in routes.slots &&
    var e := routes.slots[thread];
    e.Route? && e.session == session && e.ids.Or([]) != [] && !Live(e, since, policy)
  }

  /** The least recently used route is the only one that old. */
  predicate OneOldest(routes: Routes, oldest: Key, now: int) {
    && oldest in routes.slots && LastAt(routes.slots[oldest]) < now
    && forall k :: k in routes.slots && k != oldest ==> LastAt(routes.slots[oldest]) < LastAt(routes.slots[k])
  }

  /** Which route the cap would evict for a new one does not depend on the order of the keys. */
  ghost predicate ClearCut(routes: Routes, now: int) {
    (forall k :: k in routes.slots ==> IsValid(routes.slots[k])) && exists oldest :: OneOldest(routes, oldest, now)
  }

  /** The id of a new message, and room for its route or a clear choice of the route that has to go. */
  ghost predicate FitsNew(routes: Routes, thread: string, id: string, now: int, policy: Policy) {
    && (|Put(routes, thread, Malformed).keys| <= policy.max || ClearCut(routes, now))
    && (id != "" ==> forall k :: k in routes.slots ==> !Holds(routes.slots[k], id))
  }

  predicate Sends(thread: string, session: Session, policy: Policy) {
    policy.enabled && thread != "" && session != ""
  }

  /** Sends of new messages that fit, none of which revives a route that was dead at time `since`. */
  ghost predicate Unrevived(routes: Routes, since: int, now: int, run: seq<Action>, policy: Policy)
    decreases |run|
  {
    run == [] ||
    match run[0]
    case Send(thread, session, id) =>
      && (Sends(thread, session, policy) ==> FitsNew(routes, thread, id, now, policy) && !Revives(routes, since, thread, session, policy))
      && Unrevived(Register(routes, thread, session, id, now, policy), since, now, run[1..], policy)
    case Other(Wait(ms)) => Unrevived(routes, since, now + ms, run[1..], policy)
    case Other(Lookup(thread, replyTo)) => Unrevived(RouteFor(routes, thread, replyTo, now, policy).0, since, now, run[1..], policy)
    case Other(SweepNow) => Unrevived(Sweep(routes, now, policy), since, now, run[1..], policy)
    case Other(Drop(session)) => Unrevived(Forget(routes, session), since, now, run[1..], policy)
  }

  // ---------------------------------------------------------------- two tables that answer alike

  /** No message id is held by two routes: an id belongs to one message, sent on one thread. */
  ghost predicate OneHolder(routes: Routes) {
    forall k, l, id :: k in routes.slots && l in routes.slots && Holds(routes.slots[k], id) && Holds(routes.slots[l], id) ==> k == l
  }

  /** Alike but for the count of hits, and for a list of ids that is missing or empty. */
  predicate SameRoute(a: Entry, b: Entry) {
    a == b || (a.Route? && b.Route? && a.thread == b.thread && a.session == b.session && a.lastAt == b.lastAt && a.ids.Or([]) == b.ids.Or([]))
  }

  /** `part` lacks some routes that were dead at time `since`; the order of the keys may differ. */
  ghost predicate Twin(routes: Routes, part: Routes, since: int, now: int, policy: Policy) {
    Alike(routes, part, since, now, policy) && |routes.keys| <= policy.max
  }

  ghost predicate Alike(routes: Routes, part: Routes, since: int, now: int, policy: Policy) {
    && since <= now && routes.Valid() && part.Valid()
    && part.slots.Keys <= routes.slots.Keys
    && (forall k :: k in part.slots ==> SameRoute(part.slots[k], routes.slots[k]) && Live(part.slots[k], since, policy))
    && (forall k :: k in routes.slots && k !in part.slots ==> !Live(routes.slots[k], since, policy))
    && OneHolder(routes)
  }

  lemma SameMeans(a: Entry, b: Entry, id: string, now: int, policy: Policy)
    requires SameRoute(a, b)
    ensures Live(a, now, policy) <==> Live(b, now, policy)
    ensures Holds(a, id) <==> Holds(b, id)
  {
  }

  /** The entry under a key, seen from either table. */
  lemma {:induction false} TwinMeans(routes: Routes, part: Routes, since: int, now: int, policy: Policy, key: Key, id: string)
    requires Twin(routes, part, since, now, policy)
    ensures Live(Get(part, key), now, policy) <==> Live(Get(routes, key), now, policy)
    ensures Live(Get(routes, key), now, policy) ==> key in part.slots && key in routes.slots && SameRoute(part.slots[key], routes.slots[key])
    ensures Holds(Get(part, key), id) ==> Holds(Get(routes, key), id)
    ensures Live(Get(routes, key), now, policy) && Holds(Get(routes, key), id) ==> Holds(Get(part, key), id)
  {
    hide SameRoute, OneHolder, Table.Valid;
    if key in part.slots {
      SameMeans(part.slots[key], routes.slots[key], id, now, policy);
    }
  }

  lemma {:induction false} TwinHolder(routes: Routes, part: Routes, since: int, now: int, policy: Policy, id: string)
    requires Twin(routes, part, since, now, policy)
    ensures FirstHolding(routes.keys, routes, id, now, policy) == FirstHolding(part.keys, part, id, now, policy)
  {
    var a := FirstHolding(routes.keys, routes, id, now, policy);
    var b := FirstHolding(part.keys, part, id, now, policy);
    hide Live, Holds, SameRoute;
    if a.Some? {
      TwinMeans(routes, part, since, now, policy, a.value, id);
      assert a.value in part.keys;
    }
    if b.Some? {
      TwinMeans(routes, part, since, now, policy, b.value, id);
      assert b.value in routes.keys;
    }
  }

  lemma {:induction false} TwinChoice(routes: Routes, part: Routes, thread: string, replyTo: string, since: int, now: int, policy: Policy)
    requires Twin(routes, part, since, now, policy)
    ensures Choose(routes, thread, replyTo, now, policy) == Choose(part, thread, replyTo, now, policy)
    ensures Choose(routes, thread, replyTo, now, policy).Some? ==>
              var k := Choose(routes, thread, replyTo, now, policy).value.0;
              k in part.slots && k in routes.slots && SameRoute(part.slots[k], routes.slots[k]) && routes.slots[k].Route? && part.slots[k].Route?
  {
    hide Twin, SameRoute, FirstHolding;
    TwinMeans(routes, part, since, now, policy, thread, "");
    TwinHolder(routes, part, since, now, policy, replyTo);
    var c := Choose(routes, thread, replyTo, now, policy);
    if c.Some? {
      var k := c.value.0;
      ChosenIsLive(routes, thread, replyTo, now, policy);
      TwinMeans(routes, part, since, now, policy, k, "");
      ChosenIsLive(part, thread, replyTo, now, policy);
    }
  }

  lemma ChosenIsLive(routes: Routes, thread: string, replyTo: string, now: int, policy: Policy)
    ensures Choose(routes, thread, replyTo, now, policy).Some? ==>
              var k := Choose(routes, thread, replyTo, now, policy).value.0; Live(Get(routes, k), now, policy) && Get(routes, k).Route?
  {
  }

  lemma {:induction false} LookupKeepsTwin(routes: Routes, part: Routes, thread: string, replyTo: string, since: int, now: int, policy: Policy)
    requires Twin(routes, part, since, now, policy)
    ensures RouteFor(routes, thread, replyTo, now, policy).1 == RouteFor(part, thread, replyTo, now, policy).1
    ensures Twin(RouteFor(routes, thread, replyTo, now, policy).0, RouteFor(part, thread, replyTo, now, policy).0, since, now, policy)
  {
    hide Choose, Twin, Touch;
    TwinChoice(routes, part, thread, replyTo, since, now, policy);
    match Choose(routes, thread, replyTo, now, policy) {
      case None =>
      case Some((k, matched)) => TouchKeepsTwin(routes, part, k, since, now, policy);
    }
  }

  lemma {:induction false} TouchKeepsTwin(routes: Routes, part: Routes, key: Key, since: int, now: int, policy: Policy)
    requires Twin(routes, part, since, now, policy) && key in part.slots && key in routes.slots
    requires routes.slots[key].Route? && part.slots[key].Route?
    ensures Twin(Touch(routes, key, now), Touch(part, key, now), since, now, policy)
  {
    hide Live;
    var routes', part' := Touch(routes, key, now), Touch(part, key, now);
    assert routes'.slots.Keys == routes.slots.Keys && part'.slots.Keys == part.slots.Keys;
    TouchLives(part.slots[key], since, now, policy);
    assert forall k, id :: k in routes'.slots ==> (Holds(routes'.slots[k], id) <==> Holds(routes.slots[k], id));
  }

  lemma TouchLives(e: Entry, since: int, now: int, policy: Policy)
    requires e.Route? && Live(e, since, policy) && since <= now
    ensures Live(e.(lastAt := Some(now), hits := e.hits + 1), since, policy)
  {
  }

  lemma {:induction false} RemoveKeepsAlike(routes: Routes, part: Routes, since: int, now: int, policy: Policy, gone: set<Key>, goneToo: set<Key>)
    requires Alike(routes, part, since, now, policy)
    requires forall k :: k in part.slots ==> (k in gone <==> k in goneToo)
    ensures Alike(Remove(routes, gone), Remove(part, goneToo), since, now, policy)
  {
    hide Live, SameRoute, Pick, Holds;
    RemoveIsValid(routes, gone);
    RemoveIsValid(part, goneToo);
  }

  lemma {:induction false} RemoveKeepsTwin(routes: Routes, part: Routes, since: int, now: int, policy: Policy, gone: set<Key>, goneToo: set<Key>)
    requires Twin(routes, part, since, now, policy)
    requires forall k :: k in part.slots ==> (k in gone <==> k in goneToo)
    ensures Twin(Remove(routes, gone), Remove(part, goneToo), since, now, policy)
  {
    hide Alike, Pick;
    RemoveKeepsAlike(routes, part, since, now, policy, gone, goneToo);
    ShorterPick(routes.keys, routes.slots.Keys - gone);
  }

  lemma {:induction false} TwinIsShorter(routes: Routes, part: Routes)
    requires routes.Valid() && part.Valid() && part.slots.Keys <= routes.slots.Keys
    ensures |part.keys| <= |routes.keys|
  {
    KeyCount(routes);
    KeyCount(part);
    SubsetSize(part.slots.Keys, routes.slots.Keys);
  }

  lemma {:induction false} SweepKeepsTwin(routes: Routes, part: Routes, since: int, now: int, policy: Policy)
    requires Twin(routes, part, since, now, policy)
    ensures Twin(Sweep(routes, now, policy), Sweep(part, now, policy), since, now, policy)
  {
    hide Table.Valid, SameRoute, OneHolder, Sweep, Live;
    TwinIsShorter(routes, part);
    SweepWithinCap(routes, now, policy);
    SweepWithinCap(part, now, policy);
    forall k | k in part.slots
      ensures k in Stale(routes, now, policy) <==> k in Stale(part, now, policy)
    {
      SameMeans(part.slots[k], routes.slots[k], "", now, policy);
    }
    RemoveKeepsTwin(routes, part, since, now, policy, Stale(routes, now, policy), Stale(part, now, policy));
  }

  lemma {:induction false} ForgetKeepsTwin(routes: Routes, part: Routes, session: Session, since: int, now: int, policy: Policy)
    requires Twin(routes, part, since, now, policy)
    ensures Twin(Forget(routes, session), Forget(part, session), since, now, policy)
  {
    if session != "" {
      RemoveKeepsTwin(routes, part, since, now, policy, Owned(routes, session), Owned(part, session));
    }
  }

  // ---------------------------------------------------------------- a send

  lemma AddIdSame(a: Option<seq<string>>, b: Option<seq<string>>, id: string)
    requires a.Or([]) == b.Or([])
    ensures AddId(a, id).Or([]) == AddId(b, id).Or([])
  {
    assert [] + [id] == [id];
  }

  lemma {:induction false} AskedSame(a: Entry, b: Entry, thread: string, session: Session, id: string, now: int)
    requires a.Route? && a.session == session ==>
               if b.Route? && b.session == session then a.ids.Or([]) == b.ids.Or([]) else a.ids.Or([]) == []
    requires b.Route? && b.session == session ==> a.Route? && a.session == session
    ensures SameRoute(Asked(b, thread, session, id, now), Asked(a, thread, session, id, now))
  {
    hide AddId;
    var old_ := if a.Route? && a.session == session then a.ids else Some([]);
    var new_ := if b.Route? && b.session == session then b.ids else Some([]);
    AddIdSame(old_, new_, id);
  }

  lemma {:induction false} AskedHolds(e: Entry, thread: string, session: Session, id: string, now: int, x: string)
    ensures Holds(Asked(e, thread, session, id, now), x) ==> (x == id && id != "") || (e.Route? && e.session == session && Holds(e, x))
  {
  }

  lemma {:induction false} SendKeepsTwin(routes: Routes, part: Routes, thread: string, session: Session, id: string, since: int, now: int, policy: Policy)
    requires Twin(routes, part, since, now, policy) && Sends(thread, session, policy)
    requires FitsNew(routes, thread, id, now, policy) && !Revives(routes, since, thread, session, policy)
    ensures Twin(Register(routes, thread, session, id, now, policy), Register(part, thread, session, id, now, policy), since, now, policy)
  {
    hide Alike, Asked, Register, OneHolder, Holds, Table.Valid, ClearCut;
    var a, b := Asked(Get(routes, thread), thread, session, id, now), Asked(Get(part, thread), thread, session, id, now);
    TwinAsked(routes, part, thread, session, id, since, now, policy);
    TwinIsValid(routes, part, since, now, policy);
    PutKeepsOneHolder(routes, thread, session, id, now);
    AskedLives(Get(part, thread), thread, session, id, since, now, policy);
    PutKeepsAlike(routes, part, thread, a, b, since, now, policy);
    if |Put(routes, thread, Malformed).keys| <= policy.max {
      RegisterWithinCap(routes, thread, session, id, now, policy);
      RegisterWithinCap(part, thread, session, id, now, policy);
    } else {
      FullSend(routes, part, thread, a, b, since, now, policy);
      RegisterIs(routes, thread, session, id, now, policy);
      RegisterIs(part, thread, session, id, now, policy);
    }
  }

  lemma AskedLives(previous: Entry, thread: string, session: Session, id: string, since: int, now: int, policy: Policy)
    requires session != "" && since <= now
    ensures Live(Asked(previous, thread, session, id, now), since, policy) && LastAt(Asked(previous, thread, session, id, now)) == now
  {
    hide AddId;
  }

  lemma RegisterIs(routes: Routes, thread: string, session: Session, id: string, now: int, policy: Policy)
    requires Sends(thread, session, policy)
    ensures var longer := Put(routes, thread, Asked(Get(routes, thread), thread, session, id, now));
            Register(routes, thread, session, id, now, policy) == Remove(longer, Set(Overflow(longer, policy.max)))
  {
    hide Asked, Overflow, Pick;
  }

  // ---------------------------------------------------------------- a send that finds the table full

  /** The cap takes the one oldest route. */
  lemma {:induction false} OldestGoes(longer: Routes, max: nat, oldest: Key)
    requires longer.Valid() && |longer.keys| == max + 1 && oldest in longer.slots
    requires forall k :: k in longer.slots && k != oldest ==> LastAt(longer.slots[oldest]) < LastAt(longer.slots[k])
    ensures Set(Overflow(longer, max)) == {oldest}
  {
    SortIsDistinct(longer.keys, LastUses(longer));
    OverflowSize(longer, max);
    KeyCount(longer);
    var drop := Overflow(longer, max);
    RemovedSize(longer, drop, max);
    if drop[0] != oldest {
      FirstsRankLow(longer.keys, LastUses(longer), 1, drop[0], oldest);
    }
  }

  lemma RemovedSize(longer: Routes, drop: seq<Key>, max: nat)
    requires longer.Valid() && |longer.keys| == max + 1 && drop == Overflow(longer, max)
    ensures |drop| == 1 && drop[0] in longer.keys
  {
    OverflowSize(longer, max);
    SortIsDistinct(longer.keys, LastUses(longer));
  }

  /** What the shorter table lacks is older than all it has. */
  lemma {:induction false} LackingAreOlder(routes: Routes, part: Routes, since: int, now: int, policy: Policy)
    requires Alike(routes, part, since, now, policy) && forall k :: k in routes.slots ==> IsValid(routes.slots[k])
    ensures forall k, l :: k in routes.slots && k !in part.slots && l in part.slots && l in routes.slots ==>
              LastAt(routes.slots[k]) < LastAt(routes.slots[l])
  {
    hide Table.Valid, OneHolder;
  }

  /** So the cap takes the same route from both, or one that the shorter table lacks. */
  lemma {:induction false} OldestIsLacking(routes: Routes, part: Routes, oldest: Key, since: int, now: int, policy: Policy)
    requires Alike(routes, part, since, now, policy) && OneOldest(routes, oldest, now)
    requires forall k :: k in routes.slots ==> IsValid(routes.slots[k])
    ensures part.slots.Keys != routes.slots.Keys ==> part.slots.Keys < routes.slots.Keys && oldest !in part.slots
  {
    LackingAreOlder(routes, part, since, now, policy);
    hide Table.Valid, OneHolder, Live, SameRoute, IsValid;
    assert part.slots.Keys <= routes.slots.Keys;
    assert part.slots.Keys != routes.slots.Keys ==> exists k :: k in routes.slots && k !in part.slots;
  }

  lemma {:induction false} FullSend(routes: Routes, part: Routes, thread: string, a: Entry, b: Entry, since: int, now: int, policy: Policy)
    requires Twin(routes, part, since, now, policy) && Alike(Put(routes, thread, a), Put(part, thread, b), since, now, policy)
    requires ClearCut(routes, now) && |Put(routes, thread, Malformed).keys| > policy.max && LastAt(a) == now && LastAt(b) == now
    ensures var longer, longerPart := Put(routes, thread, a), Put(part, thread, b);
            Twin(Remove(longer, Set(Overflow(longer, policy.max))), Remove(longerPart, Set(Overflow(longerPart, policy.max))), since, now, policy)
  {
    var longer, longerPart := Put(routes, thread, a), Put(part, thread, b);
    var oldest :| OneOldest(routes, oldest, now);
    OldestIsLacking(routes, part, oldest, since, now, policy);
    TwinIsValid(routes, part, since, now, policy);
    AlikeIsValid(longer, longerPart, since, now, policy);
    NewIsNewest(routes, thread, a, oldest, now, policy);
    hide Alike, Pick, Overflow, Table.Valid, OneOldest;
    OldestGoes(longer, policy.max, oldest);
    OverflowSize(longer, policy.max);
    if part.slots.Keys == routes.slots.Keys {
      SameKeysSameCount(routes, part);
      SameLastAt(routes, part, since, now, policy);
      SameOldest(routes, part, oldest, now);
      NewIsNewest(part, thread, b, oldest, now, policy);
      OldestGoes(longerPart, policy.max, oldest);
      RemoveKeepsAlike(longer, longerPart, since, now, policy, {oldest}, {oldest});
    } else {
      LackingIsShorter(routes, part);
      NothingGoes(longerPart, policy.max);
      RemoveKeepsAlike(longer, longerPart, since, now, policy, {oldest}, {});
    }
  }

  lemma NewIsNewest(routes: Routes, thread: string, e: Entry, oldest: Key, now: int, policy: Policy)
    requires |routes.keys| <= policy.max < |Put(routes, thread, Malformed).keys| && OneOldest(routes, oldest, now) && LastAt(e) == now
    ensures var longer := Put(routes, thread, e);
            && |longer.keys| == policy.max + 1 && oldest in longer.slots
            && forall k :: k in longer.slots && k != oldest ==> LastAt(longer.slots[oldest]) < LastAt(longer.slots[k])
    ensures thread !in routes.slots && thread != oldest && |routes.keys| == policy.max
  {
  }

  lemma SameOldest(routes: Routes, part: Routes, oldest: Key, now: int)
    requires OneOldest(routes, oldest, now) && part.slots.Keys == routes.slots.Keys
    requires forall k :: k in part.slots ==> k in routes.slots && LastAt(part.slots[k]) == LastAt(routes.slots[k])
    ensures OneOldest(part, oldest, now)
  {
    assert forall k :: k in part.slots <==> k in routes.slots;
  }

  lemma NothingGoes(routes: Routes, max: nat)
    requires |routes.keys| <= max
    ensures Set(Overflow(routes, max)) == {}
  {
  }

  lemma AlikeIsValid(routes: Routes, part: Routes, since: int, now: int, policy: Policy)
    requires Alike(routes, part, since, now, policy)
    ensures routes.Valid() && part.Valid()
  {
  }

  lemma SameLastAt(routes: Routes, part: Routes, since: int, now: int, policy: Policy)
    requires Alike(routes, part, since, now, policy)
    ensures forall k :: k in part.slots ==> k in routes.slots && LastAt(part.slots[k]) == LastAt(routes.slots[k])
  {
    hide OneHolder, Table.Valid, Live;
  }

  lemma SameKeysSameCount(routes: Routes, part: Routes)
    requires routes.Valid() && part.Valid() && part.slots.Keys == routes.slots.Keys
    ensures |part.keys| == |routes.keys|
  {
    KeyCount(routes);
    KeyCount(part);
  }

  lemma LackingIsShorter(routes: Routes, part: Routes)
    requires routes.Valid() && part.Valid() && part.slots.Keys < routes.slots.Keys
    ensures |part.keys| < |routes.keys|
  {
    KeyCount(routes);
    KeyCount(part);
    var k :| k in routes.slots && k !in part.slots;
    SubsetSize(part.slots.Keys, routes.slots.Keys - {k});
  }

  lemma TwinIsValid(routes: Routes, part: Routes, since: int, now: int, policy: Policy)
    requires Twin(routes, part, since, now, policy)
    ensures routes.Valid() && part.Valid() && OneHolder(routes) && since <= now
  {
  }

  lemma {:induction false} TwinAsked(routes: Routes, part: Routes, thread: string, session: Session, id: string, since: int, now: int, policy: Policy)
    requires Twin(routes, part, since, now, policy) && Sends(thread, session, policy) && !Revives(routes, since, thread, session, policy)
    ensures SameRoute(Asked(Get(part, thread), thread, session, id, now), Asked(Get(routes, thread), thread, session, id, now))
  {
    hide Table.Valid, OneHolder, Asked, Live;
    AskedSame(Get(routes, thread), Get(part, thread), thread, session, id, now);
  }

  lemma {:induction false} PutKeepsAlike(routes: Routes, part: Routes, thread: string, a: Entry, b: Entry, since: int, now: int, policy: Policy)
    requires Twin(routes, part, since, now, policy) && SameRoute(b, a) && Live(b, since, policy) && OneHolder(Put(routes, thread, a))
    ensures Alike(Put(routes, thread, a), Put(part, thread, b), since, now, policy)
    ensures |Put(part, thread, Malformed).keys| <= |Put(routes, thread, Malformed).keys|
  {
    hide Live, SameRoute, OneHolder, Table.Valid;
    TwinIsValid(routes, part, since, now, policy);
    PutIsValid(routes, thread, a);
    PutIsValid(part, thread, b);
    TwinIsShorter(Put(routes, thread, a), Put(part, thread, b));
  }

  lemma {:induction false} PutKeepsOneHolder(routes: Routes, thread: string, session: Session, id: string, now: int)
    requires OneHolder(routes) && (id != "" ==> forall k :: k in routes.slots ==> !Holds(routes.slots[k], id))
    ensures OneHolder(Put(routes, thread, Asked(Get(routes, thread), thread, session, id, now)))
  {
    hide Asked, Holds;
    var e := Asked(Get(routes, thread), thread, session, id, now);
    var longer := Put(routes, thread, e);
    forall k, x | k in routes.slots && k != thread && Holds(routes.slots[k], x)
      ensures !Holds(e, x)
    {
      AskedHolds(Get(routes, thread), thread, session, id, now, x);
      NoneHolds(x);
    }
  }

  lemma NoneHolds(id: string)
    ensures !Holds(Malformed, id)
  {
  }

  // ---------------------------------------------------------------- runs with sends

  lemma {:induction false} TwinReplies(routes: Routes, part: Routes, since: int, now: int, run: seq<Action>, policy: Policy)
    requires Twin(routes, part, since, now, policy) && Unrevived(routes, since, now, run, policy)
    ensures Replies(routes, now, run, policy) == Replies(part, now, run, policy)
    decreases |run|
  {
    hide Register, RouteFor, Sweep, Forget, FitsNew, Revives;
    if run != [] {
      match run[0]
      case Send(thread, session, id) =>
        if Sends(thread, session, policy) {
          SendKeepsTwin(routes, part, thread, session, id, since, now, policy);
        } else {
          NotSent(routes, part, thread, session, id, now, policy);
        }
        TwinReplies(Register(routes, thread, session, id, now, policy), Register(part, thread, session, id, now, policy), since, now, run[1..], policy);
      case Other(Wait(ms)) =>
        TwinReplies(routes, part, since, now + ms, run[1..], policy);
      case Other(Lookup(thread, replyTo)) =>
        LookupKeepsTwin(routes, part, thread, replyTo, since, now, policy);
        TwinReplies(RouteFor(routes, thread, replyTo, now, policy).0, RouteFor(part, thread, replyTo, now, policy).0, since, now, run[1..], policy);
      case Other(SweepNow) =>
        SweepKeepsTwin(routes, part, since, now, policy);
        TwinReplies(Sweep(routes, now, policy), Sweep(part, now, policy), since, now, run[1..], policy);
      case Other(Drop(session)) =>
        ForgetKeepsTwin(routes, part, session, since, now, policy);
        TwinReplies(Forget(routes, session), Forget(part, session), since, now, run[1..], policy);
    }
  }

  lemma NotSent(routes: Routes, part: Routes, thread: string, session: Session, id: string, now: int, policy: Policy)
    requires !Sends(thread, session, policy)
    ensures Register(routes, thread, session, id, now, policy) == routes && Register(part, thread, session, id, now, policy) == part
  {
  }

  lemma {:induction false} SweptIsTwin(routes: Routes, now: int, policy: Policy)
    requires routes.Valid() && |routes.keys| <= policy.max && OneHolder(routes)
    ensures Twin(routes, Sweep(routes, now, policy), now, now, policy)
  {
    hide Live, Pick, OneHolder, Sweep;
    SweepWithinCap(routes, now, policy);
    RemoveIsValid(routes, Stale(routes, now, policy));
  }

  /**
   * A sweep is invisible to everything that follows, sends included: as long as the sends are of new
   * messages, find room or a clear choice of what to evict, and never hit a thread whose route was dead at the sweep, belongs to the same
   * session and holds message ids.
   */
  lemma {:induction false} SweepIsInvisibleToSends(routes: Routes, now: int, run: seq<Action>, policy: Policy)
    requires routes.Valid() && |routes.keys| <= policy.max && OneHolder(routes) && Unrevived(routes, now, now, run, policy)
    ensures Replies(Sweep(routes, now, policy), now, run, policy) == Replies(routes, now, run, policy)
  {
    hide Sweep, Replies, Unrevived;
    SweptIsTwin(routes, now, policy);
    TwinReplies(routes, Sweep(routes, now, policy), now, now, run, policy);
  }

  predicate NoSends(run: seq<Action>) {
    forall i :: 0 <= i < |run| ==> run[i].Other?
  }

  lemma {:induction false} NoSendsUnrevived(routes: Routes, since: int, now: int, run: seq<Action>, policy: Policy)
    requires NoSends(run)
    ensures Unrevived(routes, since, now, run, policy)
    decreases |run|
  {
    hide RouteFor, Sweep, Forget, Register;
    if run != [] {
      assert run[0].Other? && NoSends(run[1..]);
      match run[0]
      case Other(Wait(ms)) => NoSendsUnrevived(routes, since, now + ms, run[1..], policy);
      case Other(Lookup(thread, replyTo)) => NoSendsUnrevived(RouteFor(routes, thread, replyTo, now, policy).0, since, now, run[1..], policy);
      case Other(SweepNow) => NoSendsUnrevived(Sweep(routes, now, policy), since, now, run[1..], policy);
      case Other(Drop(session)) => NoSendsUnrevived(Forget(routes, session), since, now, run[1..], policy);
    }
  }

  // ---------------------------------------------------------------- exactly when one send can tell

  /** A reply to a message id is answered exactly by a live holder. */
  lemma {:induction false} ReplyAnswered(routes: Routes, id: string, now: int, policy: Policy)
    requires routes.Valid() && policy.enabled && id != ""
    ensures Replies(routes, now, [Other(Lookup("", id))], policy) == [RouteFor(routes, "", id, now, policy).1]
    ensures RouteFor(routes, "", id, now, policy).1.Some? <==>
              exists k :: k in routes.slots && Live(routes.slots[k], now, policy) && Holds(routes.slots[k], id)
  {
    hide Live, Holds;
    NoneHolds(id);
    NoneLives(now, policy);
    assert [Other(Lookup("", id))][1..] == [];
    var found := FirstHolding(routes.keys, routes, id, now, policy);
    assert !Live(Get(routes, ""), now, policy) || "" == "";
  }

  lemma {:induction false} OldIdSurvives(ids: seq<string>, id: string) returns (x: string)
    requires ids != [] && id !in ids
    ensures x in ids && AddId(Some(ids), id).Some? && x in AddId(Some(ids), id).value
  {
    x := ids[|ids| - 1];
    var longer := ids + [id];
    assert longer[|ids| - 1] == x;
    if id != "" && |longer| > MAX_IDS {
      var start := |longer| - MAX_IDS;
      assert longer[start..][|ids| - 1 - start] == x;
    }
  }

  /** A revived route answers for one of its old ids; the swept table does not know the id. */
  lemma {:induction false} RevivedIsSeen(routes: Routes, now: int, thread: string, session: Session, id: string, policy: Policy) returns (x: string)
    requires routes.Valid() && |routes.keys| <= policy.max && OneHolder(routes) && Sends(thread, session, policy)
    requires FitsNew(routes, thread, id, now, policy) && Revives(routes, now, thread, session, policy)
    requires forall k :: k in routes.slots ==> !Holds(routes.slots[k], "")
    ensures x != ""
    ensures RouteFor(Register(routes, thread, session, id, now, policy), "", x, now, policy).1.Some?
    ensures RouteFor(Register(Sweep(routes, now, policy), thread, session, id, now, policy), "", x, now, policy).1.None?
    ensures Register(routes, thread, session, id, now, policy).Valid() && Register(Sweep(routes, now, policy), thread, session, id, now, policy).Valid()
  {
    var part := Sweep(routes, now, policy);
    var e := routes.slots[thread];
    assert e.ids.Some? && id !in e.ids.value && "" !in e.ids.value by { assert !Holds(e, id) || id == ""; }
    x := OldIdSurvives(e.ids.value, id);
    SweptIsTwin(routes, now, policy);
    RevivedKept(routes, now, thread, session, id, policy, x);
    RevivedGone(routes, part, now, thread, session, id, policy, x);
  }

  lemma {:induction false} RevivedKept(routes: Routes, now: int, thread: string, session: Session, id: string, policy: Policy, x: string)
    requires routes.Valid() && |routes.keys| <= policy.max && Sends(thread, session, policy) && FitsNew(routes, thread, id, now, policy) && Revives(routes, now, thread, session, policy)
    requires x != "" && routes.slots[thread].ids.Some? && AddId(routes.slots[thread].ids, id).Some? && x in AddId(routes.slots[thread].ids, id).value
    ensures Register(routes, thread, session, id, now, policy).Valid()
    ensures RouteFor(Register(routes, thread, session, id, now, policy), "", x, now, policy).1.Some?
  {
    hide RouteFor, Register, AddId;
    var kept := Asked(routes.slots[thread], thread, session, id, now);
    RegisterWithinCap(routes, thread, session, id, now, policy);
    PutIsValid(routes, thread, kept);
    var longer := Put(routes, thread, kept);
    assert Live(longer.slots[thread], now, policy) && Holds(longer.slots[thread], x);
    ReplyAnswered(longer, x, now, policy);
  }

  lemma {:induction false} RevivedGone(routes: Routes, part: Routes, now: int, thread: string, session: Session, id: string, policy: Policy, x: string)
    requires Twin(routes, part, now, now, policy) && part == Sweep(routes, now, policy) && Sends(thread, session, policy)
    requires FitsNew(routes, thread, id, now, policy) && Revives(routes, now, thread, session, policy)
    requires x != "" && Holds(routes.slots[thread], x)
    ensures Register(part, thread, session, id, now, policy).Valid()
    ensures RouteFor(Register(part, thread, session, id, now, policy), "", x, now, policy).1.None?
  {
    hide RouteFor, Register, Sweep, Pick;
    SweepWithinCap(routes, now, policy);
    assert thread !in part.slots;
    var anew := Asked(Malformed, thread, session, id, now);
    PutIsValid(part, thread, anew);
    PutIsValid(routes, thread, anew);
    TwinIsShorter(Put(routes, thread, anew), Put(part, thread, anew));
    RegisterWithinCap(part, thread, session, id, now, policy);
    var longer := Put(part, thread, anew);
    forall k | k in longer.slots
      ensures !Holds(longer.slots[k], x)
    {
      if k == thread {
        AskedHolds(Malformed, thread, session, id, now, x);
      } else {
        SameMeans(part.slots[k], routes.slots[k], x, now, policy);
      }
    }
    ReplyAnswered(longer, x, now, policy);
  }

  /**
   * Exactly when one send makes a sweep visible: the swept and the unswept table answer alike whatever
   * follows the send if and only if the send does not revive a dead route.
   */
  lemma {:induction false} SendTellsIff(routes: Routes, now: int, thread: string, session: Session, id: string, policy: Policy)
    requires routes.Valid() && |routes.keys| <= policy.max && OneHolder(routes) && Sends(thread, session, policy)
    requires FitsNew(routes, thread, id, now, policy) && forall k :: k in routes.slots ==> !Holds(routes.slots[k], "")
    ensures (forall later :: NoSends(later) ==>
               Replies(Register(Sweep(routes, now, policy), thread, session, id, now, policy), now, later, policy) ==
               Replies(Register(routes, thread, session, id, now, policy), now, later, policy))
            <==> !Revives(routes, now, thread, session, policy)
  {
    hide Sweep, Register, Replies, Unrevived, Twin, OneHolder, FitsNew, RouteFor, Holds, Table.Valid;
    var a, b := Register(routes, thread, session, id, now, policy), Register(Sweep(routes, now, policy), thread, session, id, now, policy);
    if Revives(routes, now, thread, session, policy) {
      hide Revives;
      var x := RevivedIsSeen(routes, now, thread, session, id, policy);
      var later := [Other(Lookup("", x))];
      ReplyAnswered(a, x, now, policy);
      ReplyAnswered(b, x, now, policy);
      assert NoSends(later) && Replies(a, now, later, policy)[0] != Replies(b, now, later, policy)[0];
    } else {
      hide Revives;
      SweptIsTwin(routes, now, policy);
      SendKeepsTwin(routes, Sweep(routes, now, policy), thread, session, id, now, now, policy);
      forall later | NoSends(later)
        ensures Replies(b, now, later, policy) == Replies(a, now, later, policy)
      {
        NoSendsUnrevived(a, now, now, later, policy);
        TwinReplies(a, b, now, now, later, policy);
      }
    }
  }

  // ---------------------------------------------------------------- reached tables

  /** Every message is sent on one thread. */
  predicate OneThread(run: seq<Action>) {
    forall a, b :: a in run && b in run && a.Send? && b.Send? && a.id == b.id ==> a.thread == b.thread
  }

  lemma {:induction false} SentBySome(sys: Sys, run: seq<Action>, policy: Policy, t: (string, Session, string))
    requires t in Exec(sys, run, policy).sent && t !in sys.sent
    ensures Send(t.0, t.1, t.2) in run
    decreases |run|
  {
    hide Register, RouteFor, Sweep, Forget;
    if run != [] {
      var next := Apply(sys, run[0], policy);
      if t !in next.sent {
        SentBySome(next, run[1..], policy, t);
      }
    }
  }

  /** So no id is held twice, and the empty one not at all, in any table that a run reaches. */
  lemma {:induction false} ReachedHasOneHolder(run: seq<Action>, policy: Policy)
    requires OneThread(run)
    ensures var routes := Exec(START, run, policy).routes;
            && routes.Valid() && |routes.keys| <= policy.max && OneHolder(routes)
            && forall k :: k in routes.slots ==> !Holds(routes.slots[k], "")
  {
    RouteLaws.RunKeeps(START, run, policy);
    var sys := Exec(START, run, policy);
    hide Exec, Table.Valid;
    forall k, id | k in sys.routes.slots && Holds(sys.routes.slots[k], id)
      ensures id != "" && exists session :: Send(k, session, id) in run
    {
      var e := sys.routes.slots[k];
      assert GoodRoute(sys, k, e);
      SentBySome(START, run, policy, (k, e.session, id));
      assert Send(k, e.session, id) in run;
    }
    forall k, l, id | k in sys.routes.slots && l in sys.routes.slots && Holds(sys.routes.slots[k], id) && Holds(sys.routes.slots[l], id)
      ensures k == l
    {
      var s :| Send(k, s, id) in run;
      var t :| Send(l, t, id) in run;
    }
  }
}
