/** Which local conversation asked on a thread (routes.js). */
module RouteTable {
  // A routing table with a time to live and a cap on its size. Texts are taken as already trimmed.

  import opened Options
  import opened ObjectKeys

  type Session = string

  /** One table slot: a record, or something that is not a record. Ids that are not a list, or a time that is not a number, are None. */
  datatype Entry =
    | Malformed
    | Route(thread: string, session: Session, ids: Option<seq<string>>, lastAt: Option<int>, hits: int)

  type Routes = Table<Entry>

  datatype Policy = Policy(enabled: bool, ttlMs: nat, max: nat)

  const MAX_IDS: nat := 8

  predicate IsValid(e: Entry) {
    e.Route? && e.session != ""
  }

  function LastAt(e: Entry): int {
    if e.Route? then e.lastAt.Or(0) else 0
  }

  predicate Expired(e: Entry, now: int, policy: Policy) {
    LastAt(e) + policy.ttlMs < now
  }

  function Get(routes: Routes, key: Key): Entry {
    if key in routes.slots then routes.slots[key] else Malformed
  }

  function LastUses(routes: Routes): map<Key, int> {
    map k | k in routes.slots :: LastAt(routes.slots[k])
  }

  // ---------------------------------------------------------------- enforceCap

  /** The least recently used routes beyond the cap. */
  function Overflow(routes: Routes, max: nat): seq<Key> {
    if |routes.keys| <= max then [] else SortByRank(routes.keys, LastUses(routes))[..|routes.keys| - max]
  }

  // ---------------------------------------------------------------- registerRoute

  function AddId(ids: Option<seq<string>>, id: string): Option<seq<string>> {
    if id == "" then ids
    else
      match ids
      case None => Some([id])
      case Some(list) =>
        if id in list then ids
        else
          var longer := list + [id];
          Some(if |longer| <= MAX_IDS then longer else longer[|longer| - MAX_IDS..])
  }

  /** The entry after `session` sent message `id` on this thread. */
  function Asked(previous: Entry, thread: string, session: Session, id: string, now: int): Entry {
    var entry := if previous.Route? && previous.session == session then previous else Route(thread, session, Some([]), Some(now), 0);
    entry.(thread := thread, session := session, lastAt := Some(now), ids := AddId(entry.ids, id))
  }

  function Register(routes: Routes, thread: string, session: Session, id: string, now: int, policy: Policy): Routes {
    if !policy.enabled || thread == "" || session == "" then routes
    else
      var longer := Put(routes, thread, Asked(Get(routes, thread), thread, session, id, now));
      Remove(longer, Set(Overflow(longer, policy.max)))
  }

  // ---------------------------------------------------------------- routeFor

  datatype Match = ByThread | ByReplyTo

  datatype Hit = Hit(session: Session, key: Key, matched: Match)

  predicate Live(e: Entry, now: int, policy: Policy) {
    IsValid(e) && !Expired(e, now, policy)
  }

  predicate Holds(e: Entry, id: string) {
    e.Route? && e.ids.Some? && id in e.ids.value
  }

  /** The first live route, in table order, that holds this message id. */
  function FirstHolding(keys: seq<Key>, routes: Routes, id: string, now: int, policy: Policy): (r: Option<Key>)
    ensures r.Some? ==> r.value in keys && Live(Get(routes, r.value), now, policy) && Holds(Get(routes, r.value), id)
    ensures r.None? ==> forall k :: k in keys ==> !(Live(Get(routes, k), now, policy) && Holds(Get(routes, k), id))
  {
    if keys == [] then None
    else if Live(Get(routes, keys[0]), now, policy) && Holds(Get(routes, keys[0]), id) then Some(keys[0])
    else FirstHolding(keys[1..], routes, id, now, policy)
  }

  function Touch(routes: Routes, key: Key, now: int): Routes
    requires key in routes.slots && routes.slots[key].Route?
  {
    var e := routes.slots[key];
    routes.(slots := routes.slots[key := e.(lastAt := Some(now), hits := e.hits + 1)])
  }

  /** The route that answers a message, and the key it is stored under. */
  function Choose(routes: Routes, thread: string, replyTo: string, now: int, policy: Policy): Option<(Key, Match)> {
    if !policy.enabled then None
    else if thread != "" && Live(Get(routes, thread), now, policy) then Some((thread, ByThread))
    else if replyTo == "" then None
    else
      match FirstHolding(routes.keys, routes, replyTo, now, policy)
      case None => None
      case Some(k) => Some((k, ByReplyTo))
  }

  function RouteFor(routes: Routes, thread: string, replyTo: string, now: int, policy: Policy): (Routes, Option<Hit>) {
    match Choose(routes, thread, replyTo, now, policy)
    case None => (routes, None)
    case Some((k, matched)) =>
      if k !in routes.slots then (routes, None)
      else
        var e := routes.slots[k];
        (Touch(routes, k, now), Some(Hit(e.session, if matched == ByThread || e.thread == "" then k else e.thread, matched)))
  }

  // ---------------------------------------------------------------- what a message finds

  /** A well-formed route that was used at most the time to live ago. */
  predicate IsFresh(e: Entry, now: int, policy: Policy) {
    e.Route? && e.session != "" && now <= (if e.lastAt.Some? then e.lastAt.value else 0) + policy.ttlMs
  }

  /** The first key of the table whose route is fresh and holds this id. */
  ghost predicate IsFirstHolder(routes: Routes, id: string, now: int, policy: Policy, i: nat) {
    var holds := (k: Key) => k in routes.slots && IsFresh(routes.slots[k], now, policy) && routes.slots[k].ids.Some? && id in routes.slots[k].ids.value;
    i < |routes.keys| && holds(routes.keys[i]) && forall j :: 0 <= j < i ==> !holds(routes.keys[j])
  }

  /** The fresh route of the thread answers; else, for an answer, the first fresh one that holds the id answered; else nobody. */
  ghost predicate AnsweredBy(routes: Routes, thread: string, replyTo: string, now: int, policy: Policy, hit: Option<Hit>) {
    var onThread := thread != "" && thread in routes.slots && IsFresh(routes.slots[thread], now, policy);
    var holder := exists i: nat :: IsFirstHolder(routes, replyTo, now, policy, i);
    && (hit.Some? <==> policy.enabled && (onThread || (replyTo != "" && holder)))
    && (hit.Some? && onThread ==> hit.value == Hit(routes.slots[thread].session, thread, ByThread))
    && (hit.Some? && !onThread ==> forall i: nat :: IsFirstHolder(routes, replyTo, now, policy, i) ==>
          var e := routes.slots[routes.keys[i]];
          hit.value == Hit(e.session, if e.thread != "" then e.thread else routes.keys[i], ByReplyTo))
  }

  lemma FreshIff(e: Entry, now: int, policy: Policy)
    ensures Live(e, now, policy) <==> IsFresh(e, now, policy)
  {
  }

  lemma {:induction false} FirstHolderIs(keys: seq<Key>, routes: Routes, id: string, now: int, policy: Policy) returns (i: nat)
    ensures FirstHolding(keys, routes, id, now, policy).Some? ==>
              i < |keys| && keys[i] == FirstHolding(keys, routes, id, now, policy).value &&
              forall j :: 0 <= j < i ==> !(Live(Get(routes, keys[j]), now, policy) && Holds(Get(routes, keys[j]), id))
  {
    hide Live, Holds;
    i := 0;
    if keys != [] && FirstHolding(keys, routes, id, now, policy).Some? && !(Live(Get(routes, keys[0]), now, policy) && Holds(Get(routes, keys[0]), id)) {
      var j := FirstHolderIs(keys[1..], routes, id, now, policy);
      i := j + 1;
    }
  }

  lemma HoldsIff(routes: Routes, k: Key, id: string, now: int, policy: Policy)
    ensures Live(Get(routes, k), now, policy) && Holds(Get(routes, k), id) <==>
              k in routes.slots && IsFresh(routes.slots[k], now, policy) && routes.slots[k].ids.Some? && id in routes.slots[k].ids.value
  {
  }

  lemma {:induction false} HolderIff(routes: Routes, id: string, now: int, policy: Policy)
    ensures FirstHolding(routes.keys, routes, id, now, policy).Some? <==> exists i: nat :: IsFirstHolder(routes, id, now, policy, i)
    ensures forall i: nat :: IsFirstHolder(routes, id, now, policy, i) ==>
              FirstHolding(routes.keys, routes, id, now, policy) == Some(routes.keys[i])
  {
    hide Live, Holds, IsFresh, Get;
    forall k {
      HoldsIff(routes, k, id, now, policy);
    }
    var first := FirstHolderIs(routes.keys, routes, id, now, policy);
    if FirstHolding(routes.keys, routes, id, now, policy).Some? {
      assert IsFirstHolder(routes, id, now, policy, first);
      forall i: nat | IsFirstHolder(routes, id, now, policy, i)
        ensures i == first
      {
        assert !(i < first) && !(first < i);
      }
    }
  }

  lemma {:induction false} AnswerIff(routes: Routes, thread: string, replyTo: string, now: int, policy: Policy)
    ensures AnsweredBy(routes, thread, replyTo, now, policy, RouteFor(routes, thread, replyTo, now, policy).1)
  {
    hide FirstHolding, Holds, IsFirstHolder, Live, IsFresh, Touch;
    HolderIff(routes, replyTo, now, policy);
    forall e: Entry {
      FreshIff(e, now, policy);
    }
    NoSlotIsDead(now, policy);
    if exists i: nat :: IsFirstHolder(routes, replyTo, now, policy, i) {
      var i: nat :| IsFirstHolder(routes, replyTo, now, policy, i);
      HolderHasSlot(routes, replyTo, now, policy, i);
    }
  }

  lemma NoSlotIsDead(now: int, policy: Policy)
    ensures !Live(Malformed, now, policy)
  {
  }

  lemma HolderHasSlot(routes: Routes, id: string, now: int, policy: Policy, i: nat)
    requires IsFirstHolder(routes, id, now, policy, i)
    ensures i < |routes.keys| && routes.keys[i] in routes.slots
  {
  }

  lemma EntryAsked(previous: Entry, thread: string, session: Session, id: string, now: int)
    ensures var e := Asked(previous, thread, session, id, now);
            && e.Route? && e.thread == thread && e.session == session && e.lastAt == Some(now)
            && (id != "" ==> e.ids.Some? && id in e.ids.value)
            && e.hits == (if previous.Route? && previous.session == session then previous.hits else 0)
  {
    hide AddId;
    var entry := if previous.Route? && previous.session == session then previous else Route(thread, session, Some([]), Some(now), 0);
    AddedId(entry.ids, id);
  }

  /** The route that answered is used now; nothing else is changed by a lookup. */
  lemma {:induction false} LookupTouches(routes: Routes, thread: string, replyTo: string, now: int, policy: Policy) returns (key: Key)
    ensures var (routes', hit) := RouteFor(routes, thread, replyTo, now, policy);
            && routes'.keys == routes.keys && routes'.slots.Keys == routes.slots.Keys
            && (hit.None? ==> routes' == routes)
            && (hit.Some? ==>
                  && key in routes.slots && routes.slots[key].Route? && routes.slots[key].session == hit.value.session
                  && (hit.value.matched.ByThread? ==> key == thread)
                  && routes'.slots[key] == routes.slots[key].(lastAt := Some(now), hits := routes.slots[key].hits + 1))
            && (forall k :: k in routes.slots && k != key ==> hit.Some? ==> routes'.slots[k] == routes.slots[k])
  {
    hide FirstHolding, Live;
    NoSlotIsDead(now, policy);
    key := match Choose(routes, thread, replyTo, now, policy) case None => thread case Some((k, _)) => k;
    if Choose(routes, thread, replyTo, now, policy).Some? {
      ChosenIsLive(routes, thread, replyTo, now, policy);
    }
  }

  lemma ChosenIsLive(routes: Routes, thread: string, replyTo: string, now: int, policy: Policy)
    requires Choose(routes, thread, replyTo, now, policy).Some?
    ensures Live(Get(routes, Choose(routes, thread, replyTo, now, policy).value.0), now, policy)
  {
    hide Live;
  }

  lemma DeadStaysDead(e: Entry, now: int, later: int, policy: Policy)
    requires now <= later && Live(e, later, policy)
    ensures Live(e, now, policy)
  {
  }

  lemma TouchedLives(e: Entry, now: int, later: int, policy: Policy)
    requires Live(e, now, policy) && now <= later <= now + policy.ttlMs
    ensures Live(e.(lastAt := Some(now), hits := e.hits + 1), later, policy)
    ensures forall id :: Holds(e.(lastAt := Some(now), hits := e.hits + 1), id) <==> Holds(e, id)
  {
  }

  lemma {:induction false} TouchedHolds(keys: seq<Key>, routes: Routes, k: Key, id: string, now: int, later: int, policy: Policy)
    requires now <= later <= now + policy.ttlMs && k in routes.slots && routes.slots[k].Route?
    requires FirstHolding(keys, routes, id, now, policy) == Some(k)
    ensures FirstHolding(keys, Touch(routes, k, now), id, later, policy) == Some(k)
  {
    hide Live, Holds;
    if keys[0] == k {
      TouchedLives(routes.slots[k], now, later, policy);
    } else {
      assert Get(Touch(routes, k, now), keys[0]) == Get(routes, keys[0]);
      if Live(Get(routes, keys[0]), later, policy) {
        DeadStaysDead(Get(routes, keys[0]), now, later, policy);
      }
      TouchedHolds(keys[1..], routes, k, id, now, later, policy);
    }
  }

  /** So it answers the same message again, for as long as the time to live from now. */
  lemma {:induction false} HitLasts(routes: Routes, thread: string, replyTo: string, now: int, later: int, policy: Policy)
    requires RouteFor(routes, thread, replyTo, now, policy).1.Some? && now <= later <= now + policy.ttlMs
    ensures var (routes', hit) := RouteFor(routes, thread, replyTo, now, policy);
            RouteFor(routes', thread, replyTo, later, policy).1 == hit
  {
    var routes' := RouteFor(routes, thread, replyTo, now, policy).0;
    var (k, matched) := Choose(routes, thread, replyTo, now, policy).value;
    assert k in routes.slots && routes'.slots[k] == routes.slots[k].(lastAt := Some(now), hits := routes.slots[k].hits + 1);
    if matched == ByReplyTo {
      hide Live, Holds, Choose;
      TouchedHolds(routes.keys, routes, k, replyTo, now, later, policy);
    }
  }

  /** The last eight ids that were sent are held, in order, and a repeated one changes nothing. */
  lemma {:induction false} AddedId(ids: Option<seq<string>>, id: string)
    ensures id == "" || (ids.Some? && id in ids.value) ==> AddId(ids, id) == ids
    ensures id != "" && !(ids.Some? && id in ids.value) ==>
              var sent := ids.Or([]) + [id];
              AddId(ids, id) == Some(if |sent| <= 8 then sent else sent[|sent| - 8..])
    ensures id != "" ==> AddId(ids, id).Some? && id in AddId(ids, id).value
  {
    var sent := ids.Or([]) + [id];
    assert [] + [id] == [id] && sent[|sent| - 1] == id;
    if |sent| > 8 {
      assert sent[|sent| - 8..][7] == id;
    }
  }

  // ---------------------------------------------------------------- sweepRoutes, forgetRoutesForSession

  function Stale(routes: Routes, now: int, policy: Policy): set<Key> {
    set k | k in routes.slots && !Live(routes.slots[k], now, policy)
  }

  /** The slots that isValidEntry rejects. */
  function Broken(routes: Routes): set<Key> {
    set k | k in routes.slots && !IsValid(routes.slots[k])
  }

  function Sweep(routes: Routes, now: int, policy: Policy): Routes {
    var live := Remove(routes, Stale(routes, now, policy));
    Remove(live, Set(Overflow(live, policy.max)))
  }

  function Owned(routes: Routes, session: Session): set<Key> {
    set k | k in routes.slots && (if routes.slots[k].Route? then routes.slots[k].session else "") == session
  }

  function Forget(routes: Routes, session: Session): Routes {
    if session == "" then routes else Remove(routes, Owned(routes, session))
  }

  lemma SweepLeavesLive(routes: Routes, now: int, policy: Policy)
    ensures forall k :: k in Sweep(routes, now, policy).slots ==> k in routes.slots && Live(Sweep(routes, now, policy).slots[k], now, policy)
  {
    hide Pick, Overflow;
  }

  lemma LookupLeavesLive(routes: Routes, thread: string, replyTo: string, now: int, policy: Policy)
    requires forall k :: k in routes.slots ==> Live(routes.slots[k], now, policy)
    ensures var routes' := RouteFor(routes, thread, replyTo, now, policy).0; forall k :: k in routes'.slots ==> Live(routes'.slots[k], now, policy)
  {
    hide Choose;
  }

  /** Exactly the routes of the session are forgotten. */
  lemma ForgetOnlyRemoves(routes: Routes, session: Session)
    ensures forall k :: k in Forget(routes, session).slots <==>
              k in routes.slots && !(session != "" && routes.slots[k].Route? && routes.slots[k].session == session)
    ensures forall k :: k in Forget(routes, session).slots ==> Forget(routes, session).slots[k] == routes.slots[k]
  {
    hide Pick;
  }

  // ---------------------------------------------------------------- the table object

  class RouteObject {
    var keys: seq<Key>
    var slots: map<Key, Entry>

    constructor ()
      ensures View() == Table([], map[])
    {
      keys, slots := [], map[];
    }

    function View(): Routes
      reads this
    {
      Table(keys, slots)
    }

    method Delete(key: Key)
      modifies this
      ensures View() == Remove(old(View()), {key})
    {
      keys := Pick(keys, slots.Keys - {key});
      slots := slots - {key};
    }

    method EnforceCap(max: nat) returns (drop: seq<Key>)
      requires View().Valid()
      modifies this
      ensures drop == Overflow(old(View()), max) && View() == Remove(old(View()), Set(drop))
    {
      hide Table.Valid, Remove, LastUses, SortByRank;
      ghost var routes := View();
      RemoveNothing(routes);
      if |keys| <= max {
        return [];
      }
      var ordered := SortByRank(keys, LastUses(View()));
      drop := ordered[..|keys| - max];
      for i := 0 to |drop|
        invariant View() == Remove(routes, Set(drop[..i]))
      {
        assert drop[..i + 1] == drop[..i] + [drop[i]];
        RemoveOneMore(routes, drop[..i], drop[i]);
        Delete(drop[i]);
      }
      assert drop[..|drop|] == drop;
    }

    method RegisterRoute(thread: string, messageId: string, session: Session, now: int, policy: Policy) returns (entry: Option<Entry>)
      requires View().Valid()
      modifies this
      ensures View() == Register(old(View()), thread, session, messageId, now, policy)
      ensures entry == if policy.enabled && thread != "" && session != "" then Some(Asked(Get(old(View()), thread), thread, session, messageId, now)) else None
      ensures entry.Some? ==>
                var e := entry.value;
                && e.Route? && e.thread == thread && e.session == session && e.lastAt == Some(now)
                && (messageId != "" ==> e.ids.Some? && messageId in e.ids.value)
    {
      EntryAsked(Get(View(), thread), thread, session, messageId, now);
      if !policy.enabled || thread == "" || session == "" {
        return None;
      }
      hide Overflow, Remove, Asked;
      var e := NewestEntry(if thread in slots then slots[thread] else Malformed, thread, session, messageId, now);
      PutIsValid(View(), thread, e);
      keys := if thread in slots then keys else keys + [thread];
      slots := slots[thread := e];
      var dropped := EnforceCap(policy.max);
      entry := Some(e);
    }

    static method NewestEntry(previous: Entry, thread: string, session: Session, messageId: string, now: int) returns (e: Entry)
      ensures e == Asked(previous, thread, session, messageId, now)
    {
      e := Route(thread, session, Some([]), Some(now), 0);
      if previous.Route? && previous.session == session {
        e := previous;
      }
      e := e.(thread := thread, session := session, lastAt := Some(now));
      if messageId != "" && e.ids == None {
        e := e.(ids := Some([messageId]));
      } else if messageId != "" && messageId !in e.ids.value {
        var longer := e.ids.value + [messageId];
        e := e.(ids := Some(if |longer| <= MAX_IDS then longer else longer[|longer| - MAX_IDS..]));
      }
    }

    method FindRoute(thread: string, replyTo: string, now: int, policy: Policy) returns (hit: Option<Hit>)
      requires View().Valid()
      modifies this
      ensures (View(), hit) == RouteFor(old(View()), thread, replyTo, now, policy)
    {
      if !policy.enabled {
        return None;
      }
      if thread != "" && thread in slots && Live(slots[thread], now, policy) {
        var e := slots[thread];
        slots := slots[thread := e.(lastAt := Some(now), hits := e.hits + 1)];
        return Some(Hit(e.session, thread, ByThread));
      }
      if replyTo == "" {
        return None;
      }
      var found := FindHolder(replyTo, now, policy);
      if found == None {
        return None;
      }
      var key := found.value;
      var e := slots[key];
      slots := slots[key := e.(lastAt := Some(now), hits := e.hits + 1)];
      hit := Some(Hit(e.session, if e.thread == "" then key else e.thread, ByReplyTo));
    }

    method FindHolder(replyTo: string, now: int, policy: Policy) returns (found: Option<Key>)
      requires View().Valid()
      ensures found == FirstHolding(keys, View(), replyTo, now, policy)
      ensures found.Some? ==> found.value in slots && slots[found.value].Route?
    {
      hide Expired, Live, Holds, FirstHolding, IsValid;
      assert keys[0..] == keys;
      for i := 0 to |keys|
        invariant FirstHolding(keys, View(), replyTo, now, policy) == FirstHolding(keys[i..], View(), replyTo, now, policy)
      {
        HoldingStep(keys, i, View(), replyTo, now, policy);
        var e := slots[keys[i]];
        AnswersIff(e, replyTo, now, policy);
        if IsValid(e) && e.ids.Some? && replyTo in e.ids.value && !Expired(e, now, policy) {
          return Some(keys[i]);
        }
      }
      NobodyHolds(keys[|keys|..], View(), replyTo, now, policy);
      found := None;
    }

    method SweepRoutes(now: int, policy: Policy) returns (expired: nat, malformed: nat, overflow: nat)
      requires View().Valid()
      modifies this
      ensures View() == Sweep(old(View()), now, policy)
      ensures expired + malformed + overflow == |old(keys)| - |keys|
      ensures malformed == |Pick(old(keys), Broken(old(View())))|
      ensures overflow == |Overflow(Remove(old(View()), Stale(old(View()), now, policy)), policy.max)|
    {
      hide Live, Remove, Pick, Overflow, IsValid;
      expired, malformed := 0, 0;
      ghost var routes := View();
      ghost var stale := Stale(routes, now, policy);
      var snapshot := keys;
      ghost var gone: seq<Key> := [];
      RemoveNothing(routes);
      ghost var broken := Broken(routes);
      PickNone(snapshot[..0], stale);
      PickNone(snapshot[..0], broken);
      for i := 0 to |snapshot|
        invariant malformed == |Pick(snapshot[..i], broken)|
        invariant gone == Pick(snapshot[..i], stale) && View() == Remove(routes, Set(gone)) && expired + malformed == |gone|
      {
        var key := snapshot[i];
        PickOneMore(snapshot, i, stale);
        PickOneMore(snapshot, i, broken);
        PickIsFrom(snapshot[..i], stale, key);
        RemoveSpares(routes, Set(gone), key);
        LiveMeans(slots[key], now, policy);
        if !IsValid(slots[key]) {
          Delete(key);
          RemoveOneMore(routes, gone, key);
          malformed := malformed + 1;
          gone := gone + [key];
        } else if Expired(slots[key], now, policy) {
          Delete(key);
          RemoveOneMore(routes, gone, key);
          expired := expired + 1;
          gone := gone + [key];
        }
      }
      assert snapshot[..|snapshot|] == snapshot;
      AllPicked(snapshot, routes.slots.Keys, stale);
      RemoveIsValid(routes, stale);
      ghost var live := View();
      var drop := EnforceCap(policy.max);
      overflow := |drop|;
      PickKeepsDistinct(snapshot, stale);
      RemoveCounts(routes, gone);
      OverflowSize(live, policy.max);
    }

    method ForgetRoutesForSession(session: Session) returns (removed: nat)
      requires View().Valid()
      modifies this
      ensures View() == Forget(old(View()), session)
      ensures removed == |old(keys)| - |keys|
    {
      if session == "" {
        return 0;
      }
      hide Remove, Pick;
      removed := 0;
      ghost var routes := View();
      ghost var owned := Owned(routes, session);
      var snapshot := keys;
      ghost var gone: seq<Key> := [];
      RemoveNothing(routes);
      PickNone(snapshot[..0], owned);
      for i := 0 to |snapshot|
        invariant gone == Pick(snapshot[..i], owned) && View() == Remove(routes, Set(gone)) && removed == |gone|
      {
        var key := snapshot[i];
        PickOneMore(snapshot, i, owned);
        PickIsFrom(snapshot[..i], owned, key);
        RemoveSpares(routes, Set(gone), key);
        if (if slots[key].Route? then slots[key].session else "") == session {
          Delete(key);
          RemoveOneMore(routes, gone, key);
          removed := removed + 1;
          gone := gone + [key];
        }
      }
      assert snapshot[..|snapshot|] == snapshot;
      AllPicked(snapshot, routes.slots.Keys, owned);
      PickKeepsDistinct(snapshot, owned);
      RemoveCounts(routes, gone);
    }
  }

  lemma HoldingStep(keys: seq<Key>, i: nat, routes: Routes, id: string, now: int, policy: Policy)
    requires i < |keys|
    ensures FirstHolding(keys[i..], routes, id, now, policy) ==
              if Live(Get(routes, keys[i]), now, policy) && Holds(Get(routes, keys[i]), id) then Some(keys[i])
              else FirstHolding(keys[i + 1..], routes, id, now, policy)
  {
    hide Live, Holds;
    assert keys[i..][0] == keys[i] && keys[i..][1..] == keys[i + 1..];
  }

  lemma NobodyHolds(keys: seq<Key>, routes: Routes, id: string, now: int, policy: Policy)
    requires keys == []
    ensures FirstHolding(keys, routes, id, now, policy) == None
  {
  }

  lemma AnswersIff(e: Entry, id: string, now: int, policy: Policy)
    ensures IsValid(e) ==> e.Route?
    ensures Live(e, now, policy) && Holds(e, id) <==> IsValid(e) && e.ids.Some? && id in e.ids.value && !Expired(e, now, policy)
  {
  }

  lemma LiveMeans(e: Entry, now: int, policy: Policy)
    ensures Live(e, now, policy) <==> IsValid(e) && !Expired(e, now, policy)
  {
  }

  lemma PickIsFrom(keys: seq<Key>, chosen: set<Key>, key: Key)
    requires key !in keys
    ensures key !in Set(Pick(keys, chosen))
  {
  }

  lemma AllPicked(keys: seq<Key>, domain: set<Key>, chosen: set<Key>)
    requires chosen <= domain && forall k :: k in domain ==> k in keys
    ensures Set(Pick(keys, chosen)) == chosen
  {
  }

  lemma RemoveCounts(routes: Routes, gone: seq<Key>)
    requires routes.Valid() && NoDuplicates(gone) && forall k :: k in gone ==> k in routes.keys
    ensures |Remove(routes, Set(gone)).keys| == |routes.keys| - |gone|
  {
    PickLess(routes.keys, routes.slots.Keys, gone);
  }

  /** The cap leaves at most `max` routes. */
  lemma {:induction false} OverflowSize(routes: Routes, max: nat)
    requires routes.Valid()
    ensures NoDuplicates(Overflow(routes, max)) && forall k :: k in Overflow(routes, max) ==> k in routes.keys
    ensures |Remove(routes, Set(Overflow(routes, max))).keys| == |routes.keys| - |Overflow(routes, max)|
    ensures |Remove(routes, Set(Overflow(routes, max))).keys| <= max
  {
    hide SortByRank, LastUses;
    SortIsDistinct(routes.keys, LastUses(routes));
    var drop := Overflow(routes, max);
    assert forall k :: k in drop ==> k in SortByRank(routes.keys, LastUses(routes));
    RemoveCounts(routes, drop);
  }

  lemma SweepIsValid(routes: Routes, now: int, policy: Policy)
    requires routes.Valid()
    ensures Sweep(routes, now, policy).Valid()
  {
    hide Stale, Overflow;
    var live := Remove(routes, Stale(routes, now, policy));
    RemoveIsValid(routes, Stale(routes, now, policy));
    RemoveIsValid(live, Set(Overflow(live, policy.max)));
  }

  lemma RouteForIsValid(routes: Routes, thread: string, replyTo: string, now: int, policy: Policy)
    requires routes.Valid()
    ensures RouteFor(routes, thread, replyTo, now, policy).0.Valid()
  {
    hide Choose;
  }
}
