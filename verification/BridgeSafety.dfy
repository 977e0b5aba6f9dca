/**
 * The parts of the wake engine put together: a run of whole ticks is at the same time a run of the
 * loop guard, of the session pool and of the routing table, so what those guarantee holds of it. A
 * history `Parts` of the three is carried along; each lemma says which part takes a step while the
 * engine takes one of its own.
 */
module BridgeSafety {
  import opened Options
  import opened BridgeTick
  import opened BridgeLaws
  import G = WakeGuard
  import T = TopicPool
  import TR = TopicRuns
  import R = RouteTable
  import RL = RouteLaws
  import K = ObjectKeys

  /** The runs of the three parts that a run of the engine drives. */
  datatype Parts = Parts(guard: G.Sys, pool: TR.Sys, routes: RL.Sys)

  ghost predicate SameState(b: Bridge, p: Parts) {
    && p.guard.guard == b.guard && p.guard.clock == b.clock
    && p.pool.pool == b.pool && p.pool.dead == b.dead && p.pool.owner.Keys == b.created && p.pool.clock == b.clock
    && p.routes.routes == b.routes && p.routes.clock == b.clock
  }

  ghost predicate SameWakes(woken: seq<Woken>, history: seq<G.Wake>) {
    |woken| == |history| && forall i :: 0 <= i < |woken| ==> history[i].id == woken[i].thread && history[i].at == woken[i].at
  }

  ghost predicate PartsHold(p: Parts, cfg: Config) {
    G.Inv(p.guard, cfg.limits) && TR.Inv(p.pool, cfg.topics, cfg.batchLimit) && RL.Inv(p.routes, cfg.routing)
  }

  /** The session had sent on the thread of the message, or it had sent the very message that this one answers. */
  ghost predicate Asked(session: Session, newest: Msg, sent: set<Sending>) {
    (exists id :: (newest.thread, session, id) in sent) || (newest.replyTo != "" && exists thread :: (thread, session, newest.replyTo) in sent)
  }

  /** A wake went to the topic's own session, or to a session that had asked. */
  ghost predicate WellSent(w: Woken, owner: map<Session, string>, sent: set<Sending>) {
    if w.routed then w.batch != [] && Asked(w.session, w.batch[|w.batch| - 1], sent)
    else w.session in owner && owner[w.session] == w.thread
  }

  ghost predicate SendsKnown(sys: Sys, p: Parts) {
    && p.routes.sent <= sys.sent
    && forall k :: k in p.routes.asker ==> exists id :: (k, p.routes.asker[k], id) in sys.sent
  }

  ghost predicate Sent(sys: Sys, p: Parts) {
    (forall i :: 0 <= i < |sys.woken| ==> WellSent(sys.woken[i], p.pool.owner, sys.sent)) && SendsKnown(sys, p)
  }

  ghost predicate SameSends(p: Parts, p': Parts) {
    p'.routes.asker == p.routes.asker && p'.routes.sent == p.routes.sent
  }

  ghost predicate Linked(sys: Sys, p: Parts, cfg: Config) {
    SameState(sys.b, p) && SameWakes(sys.woken, p.guard.history) && PartsHold(p, cfg) && Sent(sys, p)
  }

  /** Steps of the parts keep what holds of them. */
  lemma {:induction false} GuardStep(p: Parts, a: G.Action, cfg: Config)
    requires cfg.limits.Valid() && PartsHold(p, cfg)
    ensures PartsHold(p.(guard := G.Apply(p.guard, a, cfg.limits)), cfg)
  {
    G.StepKeeps(p.guard, a, cfg.limits);
  }

  lemma {:induction false} PoolStep(p: Parts, a: TR.Action, cfg: Config)
    requires PartsHold(p, cfg)
    ensures PartsHold(p.(pool := TR.Apply(p.pool, a, cfg.topics, cfg.batchLimit)), cfg)
    ensures forall s :: s in p.pool.owner ==>
              s in TR.Apply(p.pool, a, cfg.topics, cfg.batchLimit).owner && TR.Apply(p.pool, a, cfg.topics, cfg.batchLimit).owner[s] == p.pool.owner[s]
  {
    TR.StepKeeps(p.pool, a, cfg.topics, cfg.batchLimit);
    TR.OwnersStay(p.pool, a, cfg.topics, cfg.batchLimit);
  }

  lemma {:induction false} RoutesStep(p: Parts, a: RL.Action, cfg: Config)
    requires PartsHold(p, cfg)
    ensures PartsHold(p.(routes := RL.Apply(p.routes, a, cfg.routing)), cfg)
    ensures a.Other? ==> SameSends(p, p.(routes := RL.Apply(p.routes, a, cfg.routing)))
  {
    RL.StepKeeps(p.routes, a, cfg.routing);
  }

  // ---------------------------------------------------------------- the steps of one tick

  /** The sweeps at the start of a tick. */
  lemma {:induction false} SweepParts(b: Bridge, p: Parts, cfg: Config) returns (p': Parts)
    requires SameState(b, p) && PartsHold(p, cfg)
    ensures SameState(Swept(b, cfg), p') && PartsHold(p', cfg)
    ensures p'.guard == p.guard && p'.pool.owner == p.pool.owner && SameSends(p, p')
  {
    hide PartsHold, T.Sweep, R.Sweep;
    PoolStep(p, TR.SweepNow, cfg);
    var p1 := p.(pool := TR.Apply(p.pool, TR.SweepNow, cfg.topics, cfg.batchLimit));
    RoutesStep(p1, RL.Other(RL.SweepNow), cfg);
    p' := p1.(routes := RL.Apply(p1.routes, RL.Other(RL.SweepNow), cfg.routing));
  }

  /** Asking the gate, whatever it says. */
  lemma {:induction false} GateParts(b: Bridge, p: Parts, thread: string, cfg: Config) returns (p': Parts)
    requires cfg.limits.Valid() && SameState(b, p) && PartsHold(p, cfg)
    ensures SameState(b.(guard := G.Gate(b.guard, thread, b.clock, cfg.limits).0), p') && PartsHold(p', cfg)
    ensures p'.guard.history == p.guard.history && p'.pool == p.pool && p'.routes == p.routes
  {
    hide PartsHold, G.Gate;
    GuardStep(p, G.Tick(thread, false), cfg);
    p' := p.(guard := G.Apply(p.guard, G.Tick(thread, false), cfg.limits));
  }

  /** Choosing the session, and the time it takes. */
  lemma {:induction false} ChooseParts(b: Bridge, p: Parts, newest: Msg, count: nat, poll: Poll, cfg: Config) returns (p': Parts)
    requires cfg.limits.Valid() && SameState(b, p) && PartsHold(p, cfg) && poll.Listed? && count <= cfg.batchLimit
    ensures var (b', session) := Choose(b, newest, count, poll, cfg);
            && SameState(b'.(clock := b.clock + poll.delay), p') && PartsHold(p', cfg)
            && p'.guard == p.guard.(clock := b.clock + poll.delay) && SameSends(p, p')
            && (forall s :: s in p.pool.owner ==> s in p'.pool.owner && p'.pool.owner[s] == p.pool.owner[s])
            && (session.Some? && Routed(b, newest, cfg).1.None? ==> session.value in p'.pool.owner && p'.pool.owner[session.value] == newest.topicKey)
  {
    hide PartsHold, T.PlanSession, R.RouteFor, T.Used, K.Put;
    var lookup := RL.Other(RL.Lookup(newest.thread, newest.replyTo));
    RoutesStep(p, lookup, cfg);
    var p1 := p.(routes := RL.Apply(p.routes, lookup, cfg.routing));
    var poolAction := if Routed(b, newest, cfg).1.Some? then TR.Wait(poll.delay) else TR.Wake(newest.topicKey, newest.title, count, poll.delay, poll.opens);
    PoolStep(p1, poolAction, cfg);
    var p2 := p1.(pool := TR.Apply(p1.pool, poolAction, cfg.topics, cfg.batchLimit));
    var p3 := TimePasses(p2, poll.delay, cfg);
    p' := p3;
    ReusedIsOwned(p, newest.topicKey, b.clock + poll.delay, cfg);
  }

  /** The clocks of the guard and of the routes follow the pool's. */
  lemma {:induction false} TimePasses(p: Parts, ms: nat, cfg: Config) returns (p': Parts)
    requires cfg.limits.Valid() && PartsHold(p, cfg)
    ensures PartsHold(p', cfg) && p'.pool == p.pool
    ensures p'.guard == p.guard.(clock := p.guard.clock + ms) && p'.routes == p.routes.(clock := p.routes.clock + ms)
  {
    hide PartsHold;
    GuardStep(p, G.Wait(ms), cfg);
    var p1 := p.(guard := G.Apply(p.guard, G.Wait(ms), cfg.limits));
    RoutesStep(p1, RL.Other(RL.Wait(ms)), cfg);
    p' := p1.(routes := RL.Apply(p1.routes, RL.Other(RL.Wait(ms)), cfg.routing));
  }

  /** A reused session belongs to the topic that reuses it. */
  lemma {:induction false} ReusedIsOwned(p: Parts, key: string, now: int, cfg: Config)
    requires PartsHold(p, cfg) && p.pool.clock <= now
    ensures match T.PlanSession(p.pool.pool, key, now, cfg.topics, p.pool.dead)
            case Reuse(s) => s in p.pool.owner && p.pool.owner[s] == key
            case Create(_, _) => true
  {
    TR.PlanMeans(p.pool, key, now, cfg.topics, cfg.batchLimit);
    hide T.PlanSession;
    if key in p.pool.pool.slots {
      assert TR.GoodSlot(p.pool, key, p.pool.pool.slots[key]);
    }
  }

  /** The guard's answer, recorded as a wake when the prompt was accepted. */
  lemma {:induction false} WakeGuardParts(b: Bridge, p: Parts, thread: string, cfg: Config) returns (p': Parts)
    requires cfg.limits.Valid() && SameState(b, p) && PartsHold(p, cfg) && G.Gate(b.guard, thread, b.clock, cfg.limits).1 == G.Ok
    ensures SameState(b.(guard := G.Record(G.Gate(b.guard, thread, b.clock, cfg.limits).0, thread, b.clock)), p') && PartsHold(p', cfg)
    ensures |p'.guard.history| == |p.guard.history| + 1 && p'.guard.history[..|p.guard.history|] == p.guard.history
    ensures p'.guard.history[|p.guard.history|].id == thread && p'.guard.history[|p.guard.history|].at == b.clock
    ensures p'.pool == p.pool && p'.routes == p.routes
  {
    hide PartsHold, G.Gate;
    GuardStep(p, G.Tick(thread, true), cfg);
    p' := p.(guard := G.Apply(p.guard, G.Tick(thread, true), cfg.limits));
  }

  /** Choosing a session does not look at the guard. */
  lemma ChooseIgnoresGuard(b: Bridge, guard: G.Guard, newest: Msg, count: nat, poll: Poll, cfg: Config)
    requires poll.Listed?
    ensures Choose(b.(guard := guard), newest, count, poll, cfg) ==
              (Choose(b, newest, count, poll, cfg).0.(guard := guard), Choose(b, newest, count, poll, cfg).1)
    ensures Choose(b, newest, count, poll, cfg).0.guard == b.guard
    ensures Routed(b.(guard := guard), newest, cfg) == Routed(b, newest, cfg)
  {
    hide T.PlanSession, R.RouteFor, T.Used, K.Put;
  }

  /** A prompt that was accepted. */
  lemma {:induction false} AcceptedParts(b: Bridge, p: Parts, batch: seq<Msg>, poll: Poll, cfg: Config) returns (p': Parts)
    requires cfg.limits.Valid() && SameState(b, p) && PartsHold(p, cfg) && poll.Listed? && batch != [] && |batch| <= cfg.batchLimit
    requires G.Gate(b.guard, batch[|batch| - 1].topicKey, b.clock, cfg.limits).1 == G.Ok
    requires Wake(b.(guard := G.Gate(b.guard, batch[|batch| - 1].topicKey, b.clock, cfg.limits).0), batch, poll, cfg).1.Woke?
    ensures var (b', outcome) := Wake(b.(guard := G.Gate(b.guard, batch[|batch| - 1].topicKey, b.clock, cfg.limits).0), batch, poll, cfg);
            && SameState(b', p') && PartsHold(p', cfg)
            && |p'.guard.history| == |p.guard.history| + 1 && p'.guard.history[..|p.guard.history|] == p.guard.history
            && p'.guard.history[|p.guard.history|].id == outcome.wake.thread && p'.guard.history[|p.guard.history|].at == outcome.wake.at
            && SameSends(p, p')
            && (forall s :: s in p.pool.owner ==> s in p'.pool.owner && p'.pool.owner[s] == p.pool.owner[s])
            && (!outcome.wake.routed ==> outcome.wake.session in p'.pool.owner && p'.pool.owner[outcome.wake.session] == outcome.wake.thread)
            && outcome.wake.batch == batch
            && (outcome.wake.routed ==> Routed(b, batch[|batch| - 1], cfg).1 == Some(outcome.wake.session))
  {
    hide PartsHold, Choose, Routed, G.Gate, G.Record;
    var newest := batch[|batch| - 1];
    var gated := G.Gate(b.guard, newest.topicKey, b.clock, cfg.limits).0;
    var recorded := G.Record(gated, newest.topicKey, b.clock);
    var p1 := WakeGuardParts(b, p, newest.topicKey, cfg);
    p' := ChooseParts(b.(guard := recorded), p1, newest, |batch|, poll, cfg);
    ChooseIgnoresGuard(b, recorded, newest, |batch|, poll, cfg);
    ChooseIgnoresGuard(b, gated, newest, |batch|, poll, cfg);
    RoutedIsChosen(b, newest, |batch|, poll, cfg);
  }

  lemma RoutedIsChosen(b: Bridge, newest: Msg, count: nat, poll: Poll, cfg: Config)
    requires poll.Listed?
    ensures Routed(b, newest, cfg).1.Some? ==> Choose(b, newest, count, poll, cfg).1 == Routed(b, newest, cfg).1
  {
    hide Routed;
  }

  /** A wake that the gate allowed but that no session took. */
  lemma {:induction false} RefusedParts(b: Bridge, p: Parts, batch: seq<Msg>, poll: Poll, cfg: Config) returns (p': Parts)
    requires cfg.limits.Valid() && SameState(b, p) && PartsHold(p, cfg) && poll.Listed? && batch != [] && |batch| <= cfg.batchLimit
    requires !Wake(b, batch, poll, cfg).1.Woke?
    ensures SameState(Wake(b, batch, poll, cfg).0, p') && PartsHold(p', cfg) && p'.guard.history == p.guard.history && SameSends(p, p')
    ensures forall s :: s in p.pool.owner ==> s in p'.pool.owner && p'.pool.owner[s] == p.pool.owner[s]
  {
    hide PartsHold, Choose, Routed;
    var newest := batch[|batch| - 1];
    p' := ChooseParts(b, p, newest, |batch|, poll, cfg);
    var session := Choose(b, newest, |batch|, poll, cfg).1;
    if session.Some? && poll.prompt == SessionGone {
      p' := LoseParts(Choose(b, newest, |batch|, poll, cfg).0.(clock := b.clock + poll.delay), p', session.value, cfg);
    }
  }

  lemma {:induction false} LoseParts(b: Bridge, p: Parts, session: Session, cfg: Config) returns (p': Parts)
    requires SameState(b, p) && PartsHold(p, cfg)
    ensures SameState(b.(dead := b.dead + {session}, routes := R.Forget(b.routes, session)), p') && PartsHold(p', cfg)
    ensures p'.guard == p.guard && p'.pool.owner == p.pool.owner && SameSends(p, p')
  {
    hide PartsHold, R.Forget;
    PoolStep(p, TR.Lose(session), cfg);
    var p1 := p.(pool := TR.Apply(p.pool, TR.Lose(session), cfg.topics, cfg.batchLimit));
    RoutesStep(p1, RL.Other(RL.Drop(session)), cfg);
    p' := p1.(routes := RL.Apply(p1.routes, RL.Other(RL.Drop(session)), cfg.routing));
  }

  // ---------------------------------------------------------------- a whole step

  /** The session that sent last on the thread of the message, or one that sent the message it answers. */
  ghost predicate IsAsker(p: Parts, session: Session, newest: Msg) {
    || (newest.thread in p.routes.asker && p.routes.asker[newest.thread] == session)
    || (newest.replyTo != "" && exists thread :: (thread, session, newest.replyTo) in p.routes.sent)
  }

  lemma {:induction false} AskerHasAsked(sys: Sys, p: Parts, session: Session, newest: Msg)
    requires SendsKnown(sys, p) && IsAsker(p, session, newest)
    ensures Asked(session, newest, sys.sent)
  {
    if newest.replyTo != "" && exists thread :: (thread, session, newest.replyTo) in p.routes.sent {
      var thread :| (thread, session, newest.replyTo) in p.routes.sent;
      assert (thread, session, newest.replyTo) in sys.sent;
    }
  }

  /** A session that a route answers with had asked. */
  lemma {:induction false} RoutedHasAsked(b: Bridge, p: Parts, newest: Msg, cfg: Config)
    requires SameState(b, p) && PartsHold(p, cfg)
    ensures Routed(b, newest, cfg).1.Some? ==> IsAsker(p, Routed(b, newest, cfg).1.value, newest)
  {
    RL.LookupIsRight(p.routes, cfg.routing, newest.thread, newest.replyTo);
    hide R.RouteFor;
    if Routed(b, newest, cfg).1.Some? {
      var hit := R.RouteFor(b.routes, newest.thread, newest.replyTo, b.clock, cfg.routing).1.value;
      assert RL.AnswerIsRight(p.routes, hit, newest.thread, newest.replyTo);
    }
  }

  /** The new wake, if there is one, is the guard's new wake and was sent to the right session. */
  ghost predicate Extends(p: Parts, p': Parts, outcome: Outcome) {
    && SameSends(p, p')
    && (forall s :: s in p.pool.owner ==> s in p'.pool.owner && p'.pool.owner[s] == p.pool.owner[s])
    && if outcome.Woke? then
         && |p'.guard.history| == |p.guard.history| + 1 && p'.guard.history[..|p.guard.history|] == p.guard.history
         && p'.guard.history[|p.guard.history|].id == outcome.wake.thread && p'.guard.history[|p.guard.history|].at == outcome.wake.at
         && (if outcome.wake.routed then outcome.wake.batch != [] && IsAsker(p, outcome.wake.session, outcome.wake.batch[|outcome.wake.batch| - 1])
             else outcome.wake.session in p'.pool.owner && p'.pool.owner[outcome.wake.session] == outcome.wake.thread)
       else p'.guard.history == p.guard.history
  }

  lemma {:induction false} TickParts(b: Bridge, p: Parts, poll: Poll, cfg: Config) returns (p': Parts)
    requires cfg.limits.Valid() && SameState(b, p) && PartsHold(p, cfg) && GoodAction(PollNow(poll), cfg)
    ensures SameState(Tick(b, poll, cfg).0, p') && PartsHold(p', cfg) && Extends(p, p', Tick(b, poll, cfg).1)
  {
    hide PartsHold, Wake, Swept, G.Gate, Unseen, Routed;
    p' := p;
    if poll.Listed? {
      var batch := Unseen(poll.messages, b.mark);
      UnseenIsShort(poll.messages, b.mark);
      var b1 := Swept(b, cfg);
      SweptTablesOnly(b, cfg);
      p' := SweepParts(b, p, cfg);
      if batch != [] && !(cfg.cooldownMs != 0 && b.lastNotifyAt != 0 && b.clock - b.lastNotifyAt < cfg.cooldownMs) {
        var newest := batch[|batch| - 1];
        var (guard, verdict) := G.Gate(b1.guard, newest.topicKey, b.clock, cfg.limits);
        var b2 := b1.(guard := guard);
        if verdict == G.Ok && Wake(b2, batch, poll, cfg).1.Woke? {
          RoutedHasAsked(b1, p', newest, cfg);
          p' := AcceptedParts(b1, p', batch, poll, cfg);
        } else {
          p' := GateParts(b1, p', newest.topicKey, cfg);
          if verdict == G.Ok {
            p' := RefusedParts(b2, p', batch, poll, cfg);
          }
        }
      }
    }
  }

  lemma {:induction false} UnseenIsShort(listed: seq<Msg>, mark: Mark)
    ensures |Unseen(listed, mark)| <= |listed|
  {
    if listed != [] {
      UnseenIsShort(listed[..|listed| - 1], mark);
    }
  }

  lemma {:induction false} StepLinks(sys: Sys, p: Parts, a: Action, cfg: Config) returns (p': Parts)
    requires cfg.limits.Valid() && Linked(sys, p, cfg) && GoodAction(a, cfg)
    ensures Linked(Apply(sys, a, cfg), p', cfg)
  {
    hide PartsHold, Tick, R.Register;
    match a
    case Wait(ms) =>
      PoolStep(p, TR.Wait(ms), cfg);
      p' := TimePasses(p.(pool := TR.Apply(p.pool, TR.Wait(ms), cfg.topics, cfg.batchLimit)), ms, cfg);
    case Ask(thread, session, id) =>
      RoutesStep(p, RL.Send(thread, session, id), cfg);
      p' := p.(routes := RL.Apply(p.routes, RL.Send(thread, session, id), cfg.routing));
      AskIsRegister(sys.b, thread, session, id, cfg);
      AskIsKnown(sys, p, thread, session, id, cfg);
    case PollNow(poll) =>
      p' := TickParts(sys.b, p, poll, cfg);
      WokenLinks(sys, p, p', Tick(sys.b, poll, cfg).0, Tick(sys.b, poll, cfg).1, cfg);
  }

  lemma AskIsRegister(b: Bridge, thread: string, session: Session, id: string, cfg: Config)
    ensures !cfg.routing.enabled || thread == "" || session == "" ==>
              R.Register(b.routes, thread, session, id, b.clock, cfg.routing) == b.routes
  {
  }

  lemma {:induction false} AskIsKnown(sys: Sys, p: Parts, thread: string, session: Session, id: string, cfg: Config)
    requires Sent(sys, p)
    ensures var p' := p.(routes := RL.Apply(p.routes, RL.Send(thread, session, id), cfg.routing));
            Sent(Apply(sys, Ask(thread, session, id), cfg), p')
  {
    hide R.Register;
    var p' := p.(routes := RL.Apply(p.routes, RL.Send(thread, session, id), cfg.routing));
    var sys' := Apply(sys, Ask(thread, session, id), cfg);
    assert (thread, session, id) in sys'.sent && sys.sent <= sys'.sent;
    forall i | 0 <= i < |sys.woken|
      ensures WellSent(sys.woken[i], p.pool.owner, sys'.sent)
    {
      assert WellSent(sys.woken[i], p.pool.owner, sys.sent);
    }
    forall k | k in p'.routes.asker
      ensures exists id :: (k, p'.routes.asker[k], id) in sys'.sent
    {
      if k in p.routes.asker && p'.routes.asker[k] == p.routes.asker[k] {
        var old_ :| (k, p.routes.asker[k], old_) in sys.sent;
        assert (k, p'.routes.asker[k], old_) in sys'.sent;
      }
    }
  }

  lemma {:induction false} WokenLinks(sys: Sys, p: Parts, p': Parts, b: Bridge, outcome: Outcome, cfg: Config)
    requires Linked(sys, p, cfg) && SameState(b, p') && PartsHold(p', cfg) && Extends(p, p', outcome)
    ensures Linked(sys.(b := b, woken := if outcome.Woke? then sys.woken + [outcome.wake] else sys.woken, prompted := sys.prompted + Prompted(outcome)), p', cfg)
  {
    hide PartsHold, SameState, SameWakes, Asked, IsAsker;
    var woken := if outcome.Woke? then sys.woken + [outcome.wake] else sys.woken;
    WakesExtend(sys, p, p', outcome);
    forall i | 0 <= i < |woken|
      ensures WellSent(woken[i], p'.pool.owner, sys.sent)
    {
      if i < |sys.woken| {
        assert WellSent(sys.woken[i], p.pool.owner, sys.sent);
      } else if outcome.wake.routed {
        AskerHasAsked(sys, p, outcome.wake.session, outcome.wake.batch[|outcome.wake.batch| - 1]);
      }
    }
  }

  lemma {:induction false} WakesExtend(sys: Sys, p: Parts, p': Parts, outcome: Outcome)
    requires SameWakes(sys.woken, p.guard.history) && Extends(p, p', outcome)
    ensures SameWakes(if outcome.Woke? then sys.woken + [outcome.wake] else sys.woken, p'.guard.history)
  {
    if outcome.Woke? {
      assert forall i :: 0 <= i < |p.guard.history| ==> p'.guard.history[i] == p'.guard.history[..|p.guard.history|][i];
    }
  }

  lemma {:induction false} RunLinks(sys: Sys, p: Parts, run: seq<Action>, cfg: Config) returns (p': Parts)
    requires cfg.limits.Valid() && Linked(sys, p, cfg) && GoodRun(run, cfg)
    ensures Linked(Exec(sys, run, cfg), p', cfg)
    decreases |run|
  {
    hide Linked, Apply;
    if run == [] {
      p' := p;
    } else {
      var next := StepLinks(sys, p, run[0], cfg);
      p' := RunLinks(Apply(sys, run[0], cfg), next, run[1..], cfg);
    }
  }

  const NO_PARTS: Parts := Parts(G.START, TR.START, RL.START)

  lemma StartLinks(cfg: Config)
    ensures Linked(START, NO_PARTS, cfg)
  {
    G.StartInv(cfg.limits);
  }

  // ---------------------------------------------------------------- what every run of the engine obeys

  /** Wakes at a time in [lo, hi). */
  function WokenBetween(woken: seq<Woken>, lo: int, hi: int): nat {
    if woken == [] then 0
    else WokenBetween(woken[..|woken| - 1], lo, hi) + if lo <= woken[|woken| - 1].at < hi then 1 else 0
  }

  /** Wakes of one thread at a time in [lo, hi). */
  function ThreadWokenBetween(woken: seq<Woken>, thread: string, lo: int, hi: int): nat {
    if woken == [] then 0
    else
      ThreadWokenBetween(woken[..|woken| - 1], thread, lo, hi) +
      if woken[|woken| - 1].thread == thread && lo <= woken[|woken| - 1].at < hi then 1 else 0
  }

  lemma {:induction false} SameCounts(woken: seq<Woken>, history: seq<G.Wake>, thread: string, lo: int, hi: int)
    requires SameWakes(woken, history)
    ensures WokenBetween(woken, lo, hi) == G.Between(history, lo, hi)
    ensures ThreadWokenBetween(woken, thread, lo, hi) == G.ThreadBetween(history, thread, lo, hi)
    decreases |woken|
  {
    if woken != [] {
      SameCounts(woken[..|woken| - 1], history[..|history| - 1], thread, lo, hi);
    }
  }

  /**
   * In every run of whole ticks, whatever arrives and whatever fails: an hour sees at most
   * maxWakesPerHour prompts that were accepted, and an interval as long as a budget window fewer than
   * twice maxThreadWakes of one thread.
   */
  lemma {:induction false} LoopGuardHolds(run: seq<Action>, cfg: Config, thread: string, from: int)
    requires cfg.limits.Valid() && GoodRun(run, cfg)
    ensures WokenBetween(Exec(START, run, cfg).woken, from, from + G.HOUR) <= cfg.limits.maxWakesPerHour
    ensures ThreadWokenBetween(Exec(START, run, cfg).woken, thread, from, from + cfg.limits.WindowMs() + 1) < 2 * cfg.limits.maxThreadWakes
  {
    hide Linked, Exec, WokenBetween, ThreadWokenBetween;
    StartLinks(cfg);
    var p := RunLinks(START, NO_PARTS, run, cfg);
    LinkedCaps(Exec(START, run, cfg), p, cfg, thread, from);
  }

  lemma {:induction false} LinkedCaps(sys: Sys, p: Parts, cfg: Config, thread: string, from: int)
    requires cfg.limits.Valid() && Linked(sys, p, cfg)
    ensures WokenBetween(sys.woken, from, from + G.HOUR) <= cfg.limits.maxWakesPerHour
    ensures ThreadWokenBetween(sys.woken, thread, from, from + cfg.limits.WindowMs() + 1) < 2 * cfg.limits.maxThreadWakes
  {
    hide TR.Inv, RL.Inv, SameState, SameWakes, G.Budgeted, G.Capped, G.Ordered, G.Prunes, G.Remembers;
    SameCounts(sys.woken, p.guard.history, thread, from, from + G.HOUR);
    SameCounts(sys.woken, p.guard.history, thread, from, from + cfg.limits.WindowMs() + 1);
    G.WindowCapped(p.guard.history, p.guard.clock, cfg.limits.maxWakesPerHour, from);
    G.BudgetCaps(p.guard.history, cfg.limits, thread, from);
  }

  /**
   * Every prompt went to a session that had sent on the thread of its newest message or had sent the
   * message that this one answers, or else to a session that serves only this topic.
   */
  lemma {:induction false} TopicsDoNotMix(run: seq<Action>, cfg: Config, i: nat, j: nat)
    requires cfg.limits.Valid() && GoodRun(run, cfg)
    requires i < |Exec(START, run, cfg).woken| && j < |Exec(START, run, cfg).woken|
    ensures var w, v := Exec(START, run, cfg).woken[i], Exec(START, run, cfg).woken[j];
            && (w.routed ==> w.batch != [] && Asked(w.session, w.batch[|w.batch| - 1], Exec(START, run, cfg).sent))
            && (!w.routed && !v.routed && w.session == v.session ==> w.thread == v.thread)
  {
    StartLinks(cfg);
    var p := RunLinks(START, NO_PARTS, run, cfg);
    var sys := Exec(START, run, cfg);
    hide PartsHold, SameState, Exec;
    assert WellSent(sys.woken[i], p.pool.owner, sys.sent) && WellSent(sys.woken[j], p.pool.owner, sys.sent);
  }

  // ---------------------------------------------------------------- a wake that comes again

  /** By then every window, cooldown and hour that is running now is over. */
  function Rest(cfg: Config): nat {
    cfg.cooldownMs + cfg.limits.WindowMs() + G.HOUR + 1
  }

  lemma {:induction false} TickTimes(b: Bridge, poll: Poll, cfg: Config)
    ensures var b' := Tick(b, poll, cfg).0; b.clock <= b'.clock && (b'.lastNotifyAt == b.lastNotifyAt || b'.lastNotifyAt == b.clock)
  {
    hide Unseen, T.Sweep, R.Sweep, G.Gate, T.PlanSession, R.RouteFor, T.Used, R.Forget, G.Record;
  }

  lemma {:induction false} NotifiedBefore(sys: Sys, run: seq<Action>, cfg: Config)
    requires sys.b.lastNotifyAt <= sys.b.clock
    ensures Exec(sys, run, cfg).b.lastNotifyAt <= Exec(sys, run, cfg).b.clock
    decreases |run|
  {
    hide Tick, R.Register;
    if run != [] {
      if run[0].PollNow? { TickTimes(sys.b, run[0].poll, cfg); }
      NotifiedBefore(Apply(sys, run[0], cfg), run[1..], cfg);
    }
  }

  /** After a rest the guard lets any thread through. */
  lemma {:induction false} RestedGateOpens(g: G.Sys, thread: string, now: int, cfg: Config)
    requires cfg.limits.Valid() && G.Inv(g, cfg.limits) && g.clock + Rest(cfg) <= now
    ensures G.Gate(g.guard, thread, now, cfg.limits).1 == G.Ok
  {
    assert G.Remembers(g, thread, cfg.limits);
    var at :| at <= g.clock && g.guard.wakeTimes == G.Recent(G.Times(g.history), at);
    assert G.Ordered(g.history, g.clock);
    G.RecentMeans(G.Times(g.history), at);
    assert forall i :: 0 <= i < |g.guard.wakeTimes| ==> g.guard.wakeTimes[i] in g.guard.wakeTimes;
    NoneRecent(g.guard.wakeTimes, now);
  }

  lemma {:induction false} NoneRecent(times: seq<int>, now: int)
    requires forall i :: 0 <= i < |times| ==> now - times[i] >= G.HOUR
    ensures G.Recent(times, now) == []
  {
    if times != [] {
      NoneRecent(times[1..], now);
    }
  }

  /**
   * The repeated wake is reachable after any wake: as long as nothing moved the watermark since, a
   * message that ranks above the last one of that wake wakes a session again, by a poll that lists it
   * after a long enough rest.
   */
  lemma {:induction false} RanksAboveWakesAgain(run: seq<Action>, cfg: Config, i: nat, m: Msg, session: Session)
    requires cfg.limits.Valid() && cfg.batchLimit >= 1 && GoodRun(run, cfg) && i < |Exec(START, run, cfg).woken|
    requires var sys := Exec(START, run, cfg);
             && sys.woken[i].batch != [] && sys.b.mark == Last(sys.woken[i].batch)
             && session != "" && session !in sys.b.created
    requires m.ts != "" && !m.read && !MarkLeq(MarkOf(m), Last(Exec(START, run, cfg).woken[i].batch))
    ensures var sys := Exec(START, run, cfg);
            var poll := Listed([m], 0, Some(session), Accepted);
            var woken := Apply(Apply(sys, Wait(Rest(cfg)), cfg), PollNow(poll), cfg).woken;
            |woken| == |sys.woken| + 1 && m in woken[|sys.woken|].batch
  {
    hide Linked, Apply, MarkInv, MarkLeq, Exec, GoodRun, Newer, Takes, Rest;
    var sys := Exec(START, run, cfg);
    NotifiedBefore(START, run, cfg);
    StartLinks(cfg);
    StartMark();
    RunKeepsMark(START, run, cfg);
    var p := RunLinks(START, NO_PARTS, run, cfg);
    AboveIsNewer(sys, i, m);
    RestedTakes(sys, p, m, session, cfg);
    ListedWakes(sys, Rest(cfg), Listed([m], 0, Some(session), Accepted), m, cfg);
  }

  lemma StartMark()
    ensures MarkInv(START) && START.b.lastNotifyAt <= START.b.clock
  {
  }

  lemma {:induction false} ListedWakes(sys: Sys, ms: nat, poll: Poll, m: Msg, cfg: Config)
    requires poll.Listed? && poll.messages == [m] && !m.read && Newer(m, sys.b.mark) && Takes(sys.b.(clock := sys.b.clock + ms), poll, cfg)
    ensures var woken := Apply(Apply(sys, Wait(ms), cfg), PollNow(poll), cfg).woken;
            |woken| == |sys.woken| + 1 && m in woken[|sys.woken|].batch
  {
    hide Apply, Takes, Newer, Unseen;
    WaitOnly(sys, ms, cfg);
    UnseenOne(m, sys.b.mark);
    PollWakes(sys.(b := sys.b.(clock := sys.b.clock + ms)), poll, cfg);
  }

  lemma AboveIsNewer(sys: Sys, i: nat, m: Msg)
    requires MarkInv(sys) && i < |sys.woken| && m.ts != "" && !MarkLeq(MarkOf(m), sys.b.mark)
    ensures Newer(m, sys.b.mark)
  {
    NewerIff(m, sys.b.mark);
  }

  lemma WaitOnly(sys: Sys, ms: nat, cfg: Config)
    ensures Apply(sys, Wait(ms), cfg) == sys.(b := sys.b.(clock := sys.b.clock + ms))
  {
  }

  lemma {:induction false} PollWakes(sys: Sys, poll: Poll, cfg: Config)
    requires Takes(sys.b, poll, cfg) && Unseen(poll.messages, sys.b.mark) != []
    ensures var woken := Apply(sys, PollNow(poll), cfg).woken;
            |woken| == |sys.woken| + 1 && woken[|sys.woken|].batch == Unseen(poll.messages, sys.b.mark)
  {
    hide Tick, Unseen;
    TakenWakes(sys.b, poll, cfg);
  }

  lemma {:induction false} RestedTakes(sys: Sys, p: Parts, m: Msg, session: Session, cfg: Config)
    requires cfg.limits.Valid() && Linked(sys, p, cfg) && sys.b.lastNotifyAt <= sys.b.clock && session != "" && session !in sys.b.created
    ensures Takes(sys.b.(clock := sys.b.clock + Rest(cfg)), Listed([m], 0, Some(session), Accepted), cfg)
  {
    hide Linked, Unseen, G.Gate;
    LinkedGate(sys, p, m.topicKey, Rest(cfg), cfg);
    UnseenOne(m, sys.b.mark);
  }

  lemma UnseenOne(m: Msg, mark: Mark)
    ensures Unseen([m], mark) == if !m.read && Newer(m, mark) then [m] else []
  {
    assert [m][..0] == [];
  }

  lemma {:induction false} LinkedGate(sys: Sys, p: Parts, thread: string, ms: nat, cfg: Config)
    requires cfg.limits.Valid() && Linked(sys, p, cfg) && ms >= Rest(cfg)
    ensures G.Gate(sys.b.guard, thread, sys.b.clock + ms, cfg.limits).1 == G.Ok
  {
    hide G.Inv, TR.Inv, RL.Inv;
    RestedGateOpens(p.guard, thread, sys.b.clock + ms, cfg);
  }
}
