/** One tick of the wake engine (index.js). */
module BridgeTick {
  // Poll, sweep, hold, gate, choose a session, prompt, and only then move the watermark. The pool, the routes
  // and the loop guard are those of the other modules.

  import opened Options
  import TextOrder
  import G = WakeGuard
  import T = TopicPool
  import R = RouteTable
  import K = ObjectKeys

  type Session = string

  /** An inbox message as the poll lists it; its topic key and title are what topicKeyFor and topicLabel make of it. */
  datatype Msg = Msg(id: string, ts: string, read: bool, thread: string, replyTo: string, topicKey: string, title: string)

  datatype Mark = Mark(ts: string, id: string)

  function MarkOf(m: Msg): Mark {
    Mark(m.ts, m.id)
  }

  /** isNewerThan: timestamps first, ids break ties, and an empty watermark is older than everything. */
  predicate Newer(m: Msg, mark: Mark) {
    mark.ts == "" || TextOrder.Less(mark.ts, m.ts) || (m.ts == mark.ts && TextOrder.Less(mark.id, m.id))
  }

  datatype Config = Config(cooldownMs: nat, limits: G.Limits, topics: T.Policy, routing: R.Policy, batchLimit: nat)

  /** What happens to the prompt, and to a session that has to be opened for it. */
  datatype Prompt = Accepted | Failed | SessionGone

  datatype Poll = Unreachable | Listed(messages: seq<Msg>, delay: nat, opens: Option<Session>, prompt: Prompt)

  datatype Woken = Woken(at: int, thread: string, session: Session, routed: bool, batch: seq<Msg>)

  datatype Bridge = Bridge(
    mark: Mark, lastNotifyAt: int, guard: G.Guard, pool: T.Pool, routes: R.Routes, dead: set<Session>, created: set<Session>, clock: int)

  datatype Outcome = NoPoll | Nothing | Cooling | HeldBack | GivenUp | NoSession | NotPrompted(batch: seq<Msg>) | Woke(wake: Woken)

  /** The unread messages above the watermark, in the order of the list. */
  function Unseen(listed: seq<Msg>, mark: Mark): (r: seq<Msg>)
    ensures forall m :: m in r <==> m in listed && !m.read && Newer(m, mark)
  {
    if listed == [] then []
    else
      var n := |listed| - 1;
      Unseen(listed[..n], mark) + if !listed[n].read && Newer(listed[n], mark) then [listed[n]] else []
  }

  function Swept(b: Bridge, cfg: Config): Bridge {
    b.(pool := T.Sweep(b.pool, b.clock, cfg.topics).pool, routes := R.Sweep(b.routes, b.clock, cfg.routing))
  }

  /** The live route of a message, unless its session is known to be gone. */
  function Routed(b: Bridge, newest: Msg, cfg: Config): (R.Routes, Option<Session>) {
    var (routes, hit) := R.RouteFor(b.routes, newest.thread, newest.replyTo, b.clock, cfg.routing);
    (routes, if hit.Some? && hit.value.session !in b.dead then Some(hit.value.session) else None)
  }

  /** The session for a batch: the conversation that asked, else the topic's own, else a new one if it opens. */
  function Choose(b: Bridge, newest: Msg, count: nat, poll: Poll, cfg: Config): (Bridge, Option<Session>)
    requires poll.Listed?
  {
    var (routes, asker) := Routed(b, newest, cfg);
    var b1 := b.(routes := routes);
    if asker.Some? then (b1, asker)
    else
      match T.PlanSession(b.pool, newest.topicKey, b.clock + poll.delay, cfg.topics, b.dead)
      case Reuse(s) => (Used(b1, newest, s, count), Some(s))
      case Create(_, _) =>
        if poll.opens == None || poll.opens.value == "" || poll.opens.value in b.created then (b1, None)
        else (Used(b1.(created := b.created + {poll.opens.value}), newest, poll.opens.value, count), poll.opens)
  }

  /** recordUse, at the time the tick read its clock. */
  function Used(b: Bridge, newest: Msg, s: Session, count: nat): Bridge {
    b.(pool := K.Put(b.pool, newest.topicKey, T.Used(T.Get(b.pool, newest.topicKey), s, newest.title, b.clock, count)))
  }

  /** The tick after the gate said yes. */
  function Wake(b: Bridge, batch: seq<Msg>, poll: Poll, cfg: Config): (Bridge, Outcome)
    requires poll.Listed? && batch != []
  {
    var newest := batch[|batch| - 1];
    var (b1, session) := Choose(b, newest, |batch|, poll, cfg);
    var b2 := b1.(clock := b.clock + poll.delay);
    if session == None then (b2, NoSession)
    else
      match poll.prompt
      case Failed => (b2, NotPrompted(batch))
      case SessionGone => (b2.(dead := b2.dead + {session.value}, routes := R.Forget(b2.routes, session.value)), NotPrompted(batch))
      case Accepted =>
        (b2.(guard := G.Record(b2.guard, newest.topicKey, b.clock), mark := MarkOf(newest), lastNotifyAt := b.clock),
         Woke(Woken(b.clock, newest.topicKey, session.value, Routed(b, newest, cfg).1.Some?, batch)))
  }

  function Tick(b: Bridge, poll: Poll, cfg: Config): (Bridge, Outcome) {
    if poll.Unreachable? then (b, NoPoll)
    else
      var batch := Unseen(poll.messages, b.mark);
      var b1 := Swept(b, cfg);
      if batch == [] then (b1, Nothing)
      else if cfg.cooldownMs != 0 && b.lastNotifyAt != 0 && b.clock - b.lastNotifyAt < cfg.cooldownMs then (b1, Cooling)
      else
        var newest := batch[|batch| - 1];
        var (guard, verdict) := G.Gate(b1.guard, newest.topicKey, b.clock, cfg.limits);
        var b2 := b1.(guard := guard);
        match verdict
        case Ok => Wake(b2, batch, poll, cfg)
        case Cooldown(_) => (b2, HeldBack)
        case _ => (b2.(mark := MarkOf(newest)), GivenUp)
  }

  // ---------------------------------------------------------------- which outcome a tick has

  /** The last listed message that is unread and above the watermark. */
  predicate IsNewest(listed: seq<Msg>, mark: Mark, i: nat) {
    && i < |listed| && !listed[i].read && Newer(listed[i], mark)
    && forall j :: i < j < |listed| ==> listed[j].read || !Newer(listed[j], mark)
  }

  lemma {:induction false} NewestIsLast(listed: seq<Msg>, mark: Mark, i: nat)
    requires IsNewest(listed, mark, i)
    ensures var batch := Unseen(listed, mark); batch != [] && batch[|batch| - 1] == listed[i]
  {
    hide Newer, Unseen;
    var n := |listed| - 1;
    UnseenStep(listed, mark);
    if i < n {
      assert forall j :: 0 <= j < n ==> listed[..n][j] == listed[j];
      NewestIsLast(listed[..n], mark, i);
      assert listed[n].read || !Newer(listed[n], mark);
    }
  }

  lemma {:induction false} NothingNew(listed: seq<Msg>, mark: Mark)
    requires forall i :: 0 <= i < |listed| ==> listed[i].read || !Newer(listed[i], mark)
    ensures Unseen(listed, mark) == []
  {
    hide Newer;
    if listed != [] {
      NothingNew(listed[..|listed| - 1], mark);
    }
  }

  lemma UnseenStep(listed: seq<Msg>, mark: Mark)
    requires listed != []
    ensures var n := |listed| - 1;
            Unseen(listed, mark) == Unseen(listed[..n], mark) + if !listed[n].read && Newer(listed[n], mark) then [listed[n]] else []
  {
  }

  /** These places of the list are those of its new messages, in order. */
  ghost predicate ArePlaces(places: seq<nat>, listed: seq<Msg>, mark: Mark) {
    && (forall i, j :: 0 <= i < j < |places| ==> places[i] < places[j])
    && (forall k :: 0 <= k < |places| ==> places[k] < |listed|)
    && forall i: nat :: i < |listed| ==> (i in places <==> !listed[i].read && Newer(listed[i], mark))
  }

  lemma {:induction false} OneMorePlace(places: seq<nat>, listed: seq<Msg>, mark: Mark)
    requires listed != [] && ArePlaces(places, listed[..|listed| - 1], mark)
    ensures var n: nat := |listed| - 1; ArePlaces(places + if !listed[n].read && Newer(listed[n], mark) then [n] else [], listed, mark)
  {
    hide Newer;
    var n: nat := |listed| - 1;
    assert forall i :: 0 <= i < n ==> listed[..n][i] == listed[i];
  }

  /** The batch lists the new messages in the order of the list, as often as they are there. */
  lemma {:induction false} UnseenKeepsOrder(listed: seq<Msg>, mark: Mark) returns (places: seq<nat>)
    ensures ArePlaces(places, listed, mark) && |places| == |Unseen(listed, mark)|
    ensures forall k :: 0 <= k < |places| ==> places[k] < |listed| && Unseen(listed, mark)[k] == listed[places[k]]
  {
    places := [];
    if listed != [] {
      var n: nat := |listed| - 1;
      var before := UnseenKeepsOrder(listed[..n], mark);
      hide Newer, Unseen, ArePlaces;
      UnseenStep(listed, mark);
      OneMorePlace(before, listed, mark);
      places := before + if !listed[n].read && Newer(listed[n], mark) then [n] else [];
    }
  }

  /** A prompt was accepted less than the bridge's own cooldown ago. */
  predicate IsResting(b: Bridge, cfg: Config) {
    cfg.cooldownMs != 0 && b.lastNotifyAt != 0 && b.clock - b.lastNotifyAt < cfg.cooldownMs
  }

  /** The outcome of a tick and what it does to the watermark, by the guard's fields and the clock. */
  predicate Decides(b: Bridge, b': Bridge, newest: Msg, outcome: Outcome, cfg: Config) {
    var rests := IsResting(b, cfg);
    var cools := G.IsCooling(b.guard, newest.topicKey, b.clock, cfg.limits);
    var blocked := G.IsSpent(b.guard, newest.topicKey, b.clock, cfg.limits) || |G.LastHour(b.guard.wakeTimes, b.clock)| >= cfg.limits.maxWakesPerHour;
    && (outcome.Cooling? <==> rests)
    && (outcome.HeldBack? <==> !rests && cools)
    && (outcome.GivenUp? <==> !rests && !cools && blocked)
    && (outcome.NoSession? || outcome.NotPrompted? || outcome.Woke? <==> !rests && !cools && !blocked)
    && b'.mark == (if outcome.GivenUp? || outcome.Woke? then MarkOf(newest) else b.mark)
    && b'.lastNotifyAt == (if outcome.Woke? then b.clock else b.lastNotifyAt)
  }

  /** A tick with a new message that is not resting does what the gate says. */
  lemma {:induction false} GateDecides(b: Bridge, poll: Poll, cfg: Config, batch: seq<Msg>)
    requires poll.Listed? && batch == Unseen(poll.messages, b.mark) && batch != [] && !IsResting(b, cfg)
    ensures var newest := batch[|batch| - 1];
            var v := G.Gate(b.guard, newest.topicKey, b.clock, cfg.limits).1;
            var (b', outcome) := Tick(b, poll, cfg);
            && (outcome.HeldBack? <==> v.Cooldown?)
            && (outcome.GivenUp? <==> v.Budget? || v.RateCap?)
            && (outcome.NoSession? || outcome.NotPrompted? || outcome.Woke? <==> v.Ok?)
            && b'.mark == (if outcome.GivenUp? || outcome.Woke? then MarkOf(newest) else b.mark)
            && b'.lastNotifyAt == (if outcome.Woke? then b.clock else b.lastNotifyAt)
  {
    hide Unseen, Wake, Swept, G.Gate, MarkOf;
    SweptTablesOnly(b, cfg);
    var (guard, verdict) := G.Gate(Swept(b, cfg).guard, batch[|batch| - 1].topicKey, b.clock, cfg.limits);
    WakeMarks(Swept(b, cfg).(guard := guard), batch, poll, cfg);
  }

  lemma {:induction false} RestingTick(b: Bridge, poll: Poll, cfg: Config)
    requires poll.Listed? && Unseen(poll.messages, b.mark) != [] && IsResting(b, cfg)
    ensures Tick(b, poll, cfg) == (Swept(b, cfg), Cooling)
  {
    hide Unseen, Wake, Swept, G.Gate, MarkOf;
  }

  lemma {:induction false} TickDecides(b: Bridge, poll: Poll, cfg: Config, batch: seq<Msg>, newest: Msg)
    requires poll.Listed? && batch == Unseen(poll.messages, b.mark) && batch != [] && newest == batch[|batch| - 1]
    ensures Decides(b, Tick(b, poll, cfg).0, newest, Tick(b, poll, cfg).1, cfg)
  {
    hide Unseen, Tick, Swept, IsResting, MarkOf, G.Gate, G.IsCooling, G.IsSpent, G.LastHour;
    if IsResting(b, cfg) {
      RestingTick(b, poll, cfg);
      SweptTablesOnly(b, cfg);
    } else {
      GateDecides(b, poll, cfg, batch);
      G.VerdictIff(b.guard, newest.topicKey, b.clock, cfg.limits);
    }
  }

  lemma {:induction false} OutcomeIff(b: Bridge, poll: Poll, cfg: Config, i: nat)
    requires poll.Listed? && IsNewest(poll.messages, b.mark, i)
    ensures Decides(b, Tick(b, poll, cfg).0, poll.messages[i], Tick(b, poll, cfg).1, cfg)
  {
    hide Unseen, Tick, Decides, Newer;
    NewestIsLast(poll.messages, b.mark, i);
    TickDecides(b, poll, cfg, Unseen(poll.messages, b.mark), poll.messages[i]);
  }

  lemma SweptTablesOnly(b: Bridge, cfg: Config)
    ensures Swept(b, cfg) == b.(pool := Swept(b, cfg).pool, routes := Swept(b, cfg).routes)
  {
    hide T.Sweep, R.Sweep;
  }

  lemma WakeMarks(b: Bridge, batch: seq<Msg>, poll: Poll, cfg: Config)
    requires poll.Listed? && batch != []
    ensures var (b', outcome) := Wake(b, batch, poll, cfg);
            && (outcome.NoSession? || outcome.NotPrompted? || outcome.Woke?)
            && b'.mark == (if outcome.Woke? then MarkOf(batch[|batch| - 1]) else b.mark)
            && b'.lastNotifyAt == (if outcome.Woke? then b.clock else b.lastNotifyAt)
  {
    hide T.PlanSession, R.RouteFor, R.Forget, G.Record, T.Used, K.Put;
  }

  /** Without a new message, or without an answer, a tick prompts nobody and leaves the watermark. */
  lemma {:induction false} IdleTick(b: Bridge, poll: Poll, cfg: Config)
    ensures poll.Unreachable? ==> Tick(b, poll, cfg) == (b, NoPoll)
    ensures poll.Listed? && (forall i :: 0 <= i < |poll.messages| ==> poll.messages[i].read || !Newer(poll.messages[i], b.mark)) ==>
              Tick(b, poll, cfg) == (Swept(b, cfg), Nothing)
  {
    hide Unseen, Newer, Swept, Wake, G.Gate;
    if poll.Listed? && forall i :: 0 <= i < |poll.messages| ==> poll.messages[i].read || !Newer(poll.messages[i], b.mark) {
      NothingNew(poll.messages, b.mark);
    }
  }

  /** The session that a live route answers with is used, unless it is known to be gone; nothing else is routed. */
  lemma {:induction false} RoutedIff(b: Bridge, newest: Msg, cfg: Config, session: Session)
    ensures Routed(b, newest, cfg).1 == Some(session) <==>
              var hit := R.RouteFor(b.routes, newest.thread, newest.replyTo, b.clock, cfg.routing).1;
              hit.Some? && hit.value.session == session && session !in b.dead
    ensures Routed(b, newest, cfg).1 == Some(session) ==> forall count, poll: Poll :: poll.Listed? ==> Choose(b, newest, count, poll, cfg).1 == Some(session)
  {
    hide R.RouteFor, T.PlanSession, Used;
  }

  /** A tick that got its list leaves swept tables: every route is live, and every other topic is as a sweep leaves it. */
  lemma {:induction false} TickSweeps(b: Bridge, poll: Poll, cfg: Config)
    requires poll.Listed? && b.routes.Valid()
    ensures var b' := Tick(b, poll, cfg).0;
            var batch := Unseen(poll.messages, b.mark);
            && (forall k :: k in b'.routes.slots ==> R.Live(b'.routes.slots[k], b.clock, cfg.routing))
            && (forall k :: batch == [] || k != batch[|batch| - 1].topicKey ==>
                  T.Get(b'.pool, k) == T.Get(T.Sweep(b.pool, b.clock, cfg.topics).pool, k))
  {
    hide Unseen, T.Sweep, R.Sweep, G.Gate, T.PlanSession, R.RouteFor, T.Used, R.Forget, G.Record, R.Live;
    var b1 := Swept(b, cfg);
    R.SweepLeavesLive(b.routes, b.clock, cfg.routing);
    var batch := Unseen(poll.messages, b.mark);
    if batch != [] {
      var newest := batch[|batch| - 1];
      R.LookupLeavesLive(b1.routes, newest.thread, newest.replyTo, b.clock, cfg.routing);
      var looked := R.RouteFor(b1.routes, newest.thread, newest.replyTo, b.clock, cfg.routing).0;
      forall session
        ensures forall k :: k in R.Forget(looked, session).slots ==> k in looked.slots && R.Forget(looked, session).slots[k] == looked.slots[k]
      {
        R.ForgetOnlyRemoves(looked, session);
      }
    }
  }

  class Runtime {
    const cfg: Config
    var mark: Mark
    var lastNotifyAt: int
    const guard: G.Runtime
    const pool: T.SessionPool
    const routes: R.RouteObject
    var dead: set<Session>
    var created: set<Session>
    var clock: int

    constructor (cfg: Config)
      ensures View() == Bridge(Mark("", ""), 0, G.Guard(map[], []), K.Table([], map[]), K.Table([], map[]), {}, {}, 0)
      ensures Valid() && this.cfg == cfg && fresh(guard) && fresh(pool) && fresh(routes)
    {
      this.cfg := cfg;
      mark, lastNotifyAt, dead, created, clock := Mark("", ""), 0, {}, {}, 0;
      guard := new G.Runtime(cfg.limits);
      pool := new T.SessionPool();
      routes := new R.RouteObject();
    }

    ghost predicate Valid()
      reads this, guard, pool, routes
    {
      guard.limits == cfg.limits && pool.View().Valid() && routes.View().Valid()
    }

    function View(): Bridge
      reads this, guard, pool, routes
    {
      Bridge(mark, lastNotifyAt, guard.View(), pool.View(), routes.View(), dead, created, clock)
    }

    method PollOnce(poll: Poll) returns (outcome: Outcome)
      requires Valid()
      modifies this, guard, pool, routes
      ensures (View(), outcome) == Tick(old(View()), poll, cfg)
      ensures poll.Listed? ==> forall i: nat :: IsNewest(poll.messages, old(mark), i) ==> Decides(old(View()), View(), poll.messages[i], outcome, cfg)
    {
      if poll.Listed? {
        forall i: nat | IsNewest(poll.messages, mark, i)
          ensures Decides(View(), Tick(View(), poll, cfg).0, poll.messages[i], Tick(View(), poll, cfg).1, cfg)
        {
          OutcomeIff(View(), poll, cfg, i);
        }
      }
      hide IsNewest, Decides;
      hide Wake, Unseen, T.Sweep, R.Sweep, G.Gate;
      if poll.Unreachable? {
        return NoPoll;
      }
      var batch := Unseen(poll.messages, mark);
      SweptIsValid(View(), cfg);
      var archive, drop := pool.SweepPool(clock, cfg.topics);
      var expired, malformed, overflow := routes.SweepRoutes(clock, cfg.routing);
      if batch == [] {
        return Nothing;
      }
      if cfg.cooldownMs != 0 && lastNotifyAt != 0 && clock - lastNotifyAt < cfg.cooldownMs {
        return Cooling;
      }
      var newest := batch[|batch| - 1];
      var verdict := guard.WakeGate(newest.topicKey, clock);
      if verdict == G.Ok {
        outcome := PromptOne(batch, poll);
      } else if verdict.Cooldown? {
        outcome := HeldBack;
      } else {
        mark := MarkOf(newest);
        outcome := GivenUp;
      }
    }

    method PromptOne(batch: seq<Msg>, poll: Poll) returns (outcome: Outcome)
      requires Valid() && poll.Listed? && batch != []
      modifies this, guard, pool, routes
      ensures (View(), outcome) == Wake(old(View()), batch, poll, cfg)
      ensures outcome.Woke? ==> poll.prompt.Accepted? && outcome.wake.batch == batch && mark == MarkOf(batch[|batch| - 1]) && lastNotifyAt == old(clock)
      ensures !outcome.Woke? ==> mark == old(mark) && lastNotifyAt == old(lastNotifyAt)
    {
      hide Choose, Routed, T.Used, R.RouteFor, R.Forget, G.Record, G.Gate;
      var newest := batch[|batch| - 1];
      var now := clock;
      var session, routed := ChooseSession(newest, |batch|, poll);
      clock := now + poll.delay;
      if session == None {
        return NoSession;
      }
      match poll.prompt
      case Failed => outcome := NotPrompted(batch);
      case SessionGone =>
        dead := dead + {session.value};
        var forgotten := routes.ForgetRoutesForSession(session.value);
        outcome := NotPrompted(batch);
      case Accepted =>
        guard.RecordWake(newest.topicKey, now);
        mark := MarkOf(newest);
        lastNotifyAt := now;
        outcome := Woke(Woken(now, newest.topicKey, session.value, routed, batch));
    }

    method ChooseSession(newest: Msg, count: nat, poll: Poll) returns (session: Option<Session>, routed: bool)
      requires Valid() && poll.Listed?
      modifies this`created, pool, routes
      ensures (View(), session) == Choose(old(View()), newest, count, poll, cfg) && routed == Routed(old(View()), newest, cfg).1.Some?
      ensures routes.View().Valid()
      ensures routed ==> session.Some? && session.value !in dead
      ensures session.Some? && !routed ==>
                newest.topicKey in pool.slots && pool.slots[newest.topicKey].Entry? &&
                pool.slots[newest.topicKey].session == session.value && pool.slots[newest.topicKey].lastUsedAt == Some(clock)
    {
      hide T.Used, R.RouteFor, T.PlanSession;
      R.RouteForIsValid(routes.View(), newest.thread, newest.replyTo, clock, cfg.routing);
      var hit := routes.FindRoute(newest.thread, newest.replyTo, clock, cfg.routing);
      if hit.Some? && hit.value.session !in dead {
        return Some(hit.value.session), true;
      }
      routed := false;
      match T.PlanSession(pool.View(), newest.topicKey, clock + poll.delay, cfg.topics, dead)
      case Reuse(s) =>
        var entry := pool.RecordUse(newest.topicKey, s, newest.title, clock, count);
        session := Some(s);
      case Create(_, _) =>
        if poll.opens == None || poll.opens.value == "" || poll.opens.value in created {
          return None, false;
        }
        created := created + {poll.opens.value};
        var entry := pool.RecordUse(newest.topicKey, poll.opens.value, newest.title, clock, count);
        session := poll.opens;
    }
  }

  lemma SweptIsValid(b: Bridge, cfg: Config)
    requires b.pool.Valid() && b.routes.Valid()
    ensures T.Sweep(b.pool, b.clock, cfg.topics).pool.Valid() && R.Sweep(b.routes, b.clock, cfg.routing).Valid()
  {
    T.SweepIsValid(b.pool, b.clock, cfg.topics);
    R.SweepIsValid(b.routes, b.clock, cfg.routing);
  }
}
