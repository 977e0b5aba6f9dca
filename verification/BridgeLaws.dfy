/**
 * What every run of the wake engine obeys: the watermark never goes down, nothing at or below it is
 * prompted, and a message is part of at most one successful wake as long as order by id agrees with order
 * by timestamp; without that, exactly when it wakes a session again.
 */
module BridgeLaws {
  import opened Options
  import opened BridgeTick
  import TextOrder
  import G = WakeGuard
  import T = TopicPool
  import TR = TopicRuns
  import R = RouteTable
  import RL = RouteLaws
  import K = ObjectKeys

  // ---------------------------------------------------------------- the order of (ts, id)

  predicate MarkLeq(a: Mark, b: Mark) {
    a.ts == "" || TextOrder.Less(a.ts, b.ts) || (a.ts == b.ts && (a.id == b.id || TextOrder.Less(a.id, b.id)))
  }

  lemma {:induction false} MarkTransitive(a: Mark, b: Mark, c: Mark)
    requires MarkLeq(a, b) && MarkLeq(b, c) && b.ts != ""
    ensures MarkLeq(a, c)
  {
    if a.ts != "" {
      if TextOrder.Less(a.ts, b.ts) && TextOrder.Less(b.ts, c.ts) { TextOrder.LessTransitive(a.ts, b.ts, c.ts); }
      if TextOrder.Less(a.id, b.id) && TextOrder.Less(b.id, c.id) { TextOrder.LessTransitive(a.id, b.id, c.id); }
    }
  }

  /** Above the watermark means not at or below it. */
  lemma {:induction false} NewerIff(m: Msg, mark: Mark)
    requires mark.ts != "" && m.ts != ""
    ensures Newer(m, mark) <==> !MarkLeq(MarkOf(m), mark)
  {
    TextOrder.LessTotal(m.ts, mark.ts);
    TextOrder.LessTotal(m.id, mark.id);
    TextOrder.LessIrreflexive(m.ts);
    TextOrder.LessIrreflexive(m.id);
    if TextOrder.Less(m.ts, mark.ts) { TextOrder.LessAsymmetric(m.ts, mark.ts); }
    if TextOrder.Less(m.id, mark.id) { TextOrder.LessAsymmetric(m.id, mark.id); }
  }

  lemma {:induction false} NewerMoves(m: Msg, mark: Mark)
    requires Newer(m, mark)
    ensures MarkLeq(mark, MarkOf(m))
  {
  }

  /** What is above a watermark is above every earlier one. */
  lemma {:induction false} NewerThanEarlier(m: Msg, earlier: Mark, mark: Mark)
    requires Newer(m, mark) && MarkLeq(earlier, mark) && mark.ts != "" && m.ts != ""
    ensures Newer(m, earlier)
  {
    if earlier.ts != "" {
      NewerIff(m, mark);
      NewerIff(m, earlier);
      if MarkLeq(MarkOf(m), earlier) { MarkTransitive(MarkOf(m), earlier, mark); }
    }
  }

  // ---------------------------------------------------------------- runs

  datatype Action = Wait(ms: nat) | Ask(thread: string, session: Session, id: string) | PollNow(poll: Poll)

  /** A message sent by a session: the thread, the session, the message's id. */
  type Sending = (string, Session, string)

  /** The engine, the wakes so far, the batches that were prompted (accepted or not), and what was sent. */
  datatype Sys = Sys(b: Bridge, woken: seq<Woken>, prompted: seq<seq<Msg>>, sent: set<Sending>)

  const START: Sys := Sys(Bridge(Mark("", ""), 0, G.Guard(map[], []), K.Table([], map[]), K.Table([], map[]), {}, {}, 0), [], [], {})

  function Prompted(outcome: Outcome): seq<seq<Msg>> {
    match outcome
    case Woke(wake) => [wake.batch]
    case NotPrompted(batch) => [batch]
    case _ => []
  }

  function Apply(sys: Sys, a: Action, cfg: Config): Sys {
    match a
    case Wait(ms) => sys.(b := sys.b.(clock := sys.b.clock + ms))
    case Ask(thread, session, id) =>
      sys.(b := sys.b.(routes := R.Register(sys.b.routes, thread, session, id, sys.b.clock, cfg.routing)), sent := sys.sent + {(thread, session, id)})
    case PollNow(poll) =>
      var (b, outcome) := Tick(sys.b, poll, cfg);
      sys.(b := b, woken := if outcome.Woke? then sys.woken + [outcome.wake] else sys.woken, prompted := sys.prompted + Prompted(outcome))
  }

  function Exec(sys: Sys, run: seq<Action>, cfg: Config): Sys
    decreases |run|
  {
    if run == [] then sys else Exec(Apply(sys, run[0], cfg), run[1..], cfg)
  }

  /** Every listed message has a timestamp, and a list is no longer than the poll asked for. */
  predicate GoodAction(a: Action, cfg: Config) {
    a.PollNow? && a.poll.Listed? ==> |a.poll.messages| <= cfg.batchLimit && forall m :: m in a.poll.messages ==> m.ts != ""
  }

  predicate GoodRun(run: seq<Action>, cfg: Config) {
    forall a :: a in run ==> GoodAction(a, cfg)
  }

  // ---------------------------------------------------------------- the watermark

  /** A tick moves the watermark only when it woke a session or gave a wake up for good, and then to the newest message it saw. */
  lemma {:induction false} MarkMoves(b: Bridge, poll: Poll, cfg: Config)
    ensures var (b', outcome) := Tick(b, poll, cfg);
            && (!(outcome.Woke? || outcome.GivenUp?) ==> b'.mark == b.mark && b'.lastNotifyAt == b.lastNotifyAt)
            && (outcome.Woke? || outcome.GivenUp? ==>
                  poll.Listed? && Unseen(poll.messages, b.mark) != [] &&
                  var batch := Unseen(poll.messages, b.mark); b'.mark == MarkOf(batch[|batch| - 1]))
            && (outcome.Woke? ==> outcome.wake.batch == Unseen(poll.messages, b.mark) && outcome.wake.at == b.clock)
            && forall batch :: batch in Prompted(outcome) ==> poll.Listed? && batch == Unseen(poll.messages, b.mark)
  {
    hide Unseen, T.Sweep, R.Sweep, G.Gate, T.PlanSession, R.RouteFor, T.Used, R.Forget, G.Record;
  }

  predicate Timed(batch: seq<Msg>) {
    batch != [] && forall m :: m in batch ==> m.ts != ""
  }

  function Last(batch: seq<Msg>): Mark
    requires batch != []
  {
    MarkOf(batch[|batch| - 1])
  }

  /** Past wakes lie at or below the watermark, and each lies above the one before. */
  ghost predicate MarkInv(sys: Sys) {
    && (forall i :: 0 <= i < |sys.woken| ==> Timed(sys.woken[i].batch) && MarkLeq(Last(sys.woken[i].batch), sys.b.mark))
    && (sys.woken != [] ==> sys.b.mark.ts != "")
    && forall i, j, m :: 0 <= i < j < |sys.woken| && m in sys.woken[j].batch ==> Newer(m, Last(sys.woken[i].batch))
  }

  lemma {:induction false} StepKeepsMark(sys: Sys, a: Action, cfg: Config)
    requires MarkInv(sys) && GoodAction(a, cfg)
    ensures MarkInv(Apply(sys, a, cfg)) && MarkLeq(sys.b.mark, Apply(sys, a, cfg).b.mark)
  {
    hide Tick;
    var sys' := Apply(sys, a, cfg);
    if a.PollNow? {
      MarkMoves(sys.b, a.poll, cfg);
      var (b', outcome) := Tick(sys.b, a.poll, cfg);
      if outcome.Woke? || outcome.GivenUp? {
        var batch := Unseen(a.poll.messages, sys.b.mark);
        assert batch[|batch| - 1] in batch;
        NewerMoves(batch[|batch| - 1], sys.b.mark);
        MarkRaised(sys, sys', batch);
      }
    }
  }

  lemma {:induction false} MarkRaised(sys: Sys, sys': Sys, batch: seq<Msg>)
    requires MarkInv(sys) && Timed(batch) && sys'.b.mark == Last(batch) && MarkLeq(sys.b.mark, Last(batch))
    requires forall m :: m in batch ==> Newer(m, sys.b.mark)
    requires sys'.woken == sys.woken || (|sys'.woken| == |sys.woken| + 1 && sys'.woken[..|sys.woken|] == sys.woken && sys'.woken[|sys.woken|].batch == batch)
    ensures MarkInv(sys')
  {
    hide Newer;
    assert batch[|batch| - 1] in batch;
    assert forall i :: 0 <= i < |sys.woken| ==> sys'.woken[i] == sys.woken[i];
    forall i | 0 <= i < |sys.woken|
      ensures MarkLeq(Last(sys.woken[i].batch), sys'.b.mark)
      ensures forall m :: m in batch ==> Newer(m, Last(sys.woken[i].batch))
    {
      MarkTransitive(Last(sys.woken[i].batch), sys.b.mark, Last(batch));
      forall m | m in batch
        ensures Newer(m, Last(sys.woken[i].batch))
      {
        NewerThanEarlier(m, Last(sys.woken[i].batch), sys.b.mark);
      }
    }
  }

  lemma {:induction false} RunKeepsMark(sys: Sys, run: seq<Action>, cfg: Config)
    requires MarkInv(sys) && GoodRun(run, cfg)
    ensures MarkInv(Exec(sys, run, cfg)) && MarkLeq(sys.b.mark, Exec(sys, run, cfg).b.mark)
    decreases |run|
  {
    hide Apply, MarkInv, MarkLeq;
    if run == [] {
      MarkReflexive(sys.b.mark);
    } else {
      var next := Apply(sys, run[0], cfg);
      StepKeepsMark(sys, run[0], cfg);
      RunKeepsMark(next, run[1..], cfg);
      MarkChain(sys.b.mark, next.b.mark, Exec(sys, run, cfg).b.mark);
    }
  }

  lemma MarkReflexive(a: Mark)
    ensures MarkLeq(a, a)
  {
  }

  lemma {:induction false} MarkChain(a: Mark, b: Mark, c: Mark)
    requires MarkLeq(a, b) && MarkLeq(b, c)
    ensures MarkLeq(a, c)
  {
    if b.ts != "" { MarkTransitive(a, b, c); }
  }

  /** The watermark of a run never goes down. */
  lemma {:induction false} WatermarkNeverDecreases(run: seq<Action>, more: seq<Action>, cfg: Config)
    requires GoodRun(run, cfg) && GoodRun(more, cfg)
    ensures MarkLeq(Exec(START, run, cfg).b.mark, Exec(Exec(START, run, cfg), more, cfg).b.mark)
  {
    RunKeepsMark(START, run, cfg);
    RunKeepsMark(Exec(START, run, cfg), more, cfg);
  }

  /** What a step prompts lies above the watermark it starts from. */
  lemma {:induction false} StepPromptsNew(sys: Sys, a: Action, cfg: Config)
    ensures sys.prompted <= Apply(sys, a, cfg).prompted
    ensures forall k, m :: |sys.prompted| <= k < |Apply(sys, a, cfg).prompted| && m in Apply(sys, a, cfg).prompted[k] ==>
              a.PollNow? && a.poll.Listed? && m in a.poll.messages && !m.read && Newer(m, sys.b.mark)
  {
    hide Tick, Newer;
    if a.PollNow? {
      MarkMoves(sys.b, a.poll, cfg);
      var outcome := Tick(sys.b, a.poll, cfg).1;
      assert forall batch :: batch in Prompted(outcome) ==> forall m :: m in batch ==> m in a.poll.messages && !m.read && Newer(m, sys.b.mark);
      assert forall k :: |sys.prompted| <= k < |Apply(sys, a, cfg).prompted| ==> Apply(sys, a, cfg).prompted[k] in Prompted(outcome);
    }
  }

  /** Everything prompted from here on, successfully or not, lies above the watermark reached so far. */
  lemma {:induction false} LaterIsNewer(sys: Sys, run: seq<Action>, cfg: Config, k: nat, m: Msg)
    requires MarkInv(sys) && GoodRun(run, cfg)
    requires |sys.prompted| <= k < |Exec(sys, run, cfg).prompted| && m in Exec(sys, run, cfg).prompted[k]
    ensures m.ts != "" && Newer(m, sys.b.mark)
    decreases |run|
  {
    hide Apply, MarkInv, MarkLeq, Newer;
    if run != [] {
      var next := Apply(sys, run[0], cfg);
      StepPromptsNew(sys, run[0], cfg);
      StepKeepsMark(sys, run[0], cfg);
      PromptedStays(next, run[1..], cfg);
      assert run[0] in run;
      if k < |next.prompted| {
        assert next.prompted[k] == Exec(sys, run, cfg).prompted[k];
      } else {
        LaterIsNewer(next, run[1..], cfg, k, m);
        NewerThanBoth(m, sys.b.mark, next.b.mark);
      }
    }
  }

  lemma {:induction false} PromptedStays(sys: Sys, run: seq<Action>, cfg: Config)
    ensures sys.prompted <= Exec(sys, run, cfg).prompted
    decreases |run|
  {
    hide Apply;
    if run != [] {
      StepPromptsNew(sys, run[0], cfg);
      PromptedStays(Apply(sys, run[0], cfg), run[1..], cfg);
    }
  }

  lemma {:induction false} NewerThanBoth(m: Msg, earlier: Mark, mark: Mark)
    requires Newer(m, mark) && MarkLeq(earlier, mark) && m.ts != ""
    ensures Newer(m, earlier)
  {
    if mark.ts != "" {
      NewerThanEarlier(m, earlier, mark);
    }
  }

  /**
   * Nothing at or below the watermark is ever prompted: whatever a run does after another one, every
   * message of every batch it prompts, accepted or failed, lies above the watermark of that moment.
   */
  lemma {:induction false} NothingOldIsPrompted(run: seq<Action>, more: seq<Action>, cfg: Config, k: nat, m: Msg)
    requires GoodRun(run, cfg) && GoodRun(more, cfg)
    requires var sys := Exec(START, run, cfg);
             |sys.prompted| <= k < |Exec(sys, more, cfg).prompted| && m in Exec(sys, more, cfg).prompted[k]
    ensures Newer(m, Exec(START, run, cfg).b.mark)
  {
    RunKeepsMark(START, run, cfg);
    LaterIsNewer(Exec(START, run, cfg), more, cfg, k, m);
  }

  // ---------------------------------------------------------------- no message twice

  /** In a list by id, timestamps do not go down. */
  predicate IdsAgree(listed: seq<Msg>) {
    && (forall i, j :: 0 <= i < j < |listed| ==> TextOrder.Less(listed[i].id, listed[j].id))
    && forall i, j :: 0 <= i < j < |listed| ==> listed[i].ts == listed[j].ts || TextOrder.Less(listed[i].ts, listed[j].ts)
  }

  predicate AgreeingRun(run: seq<Action>) {
    forall a :: a in run ==> (a.PollNow? && a.poll.Listed? ==> IdsAgree(a.poll.messages))
  }

  /** The last message of the batch is its highest in (ts, id). */
  ghost predicate LastIsHighest(batch: seq<Msg>) {
    batch != [] && forall m :: m in batch ==> MarkLeq(MarkOf(m), Last(batch))
  }

  lemma {:induction false} AgreementPutsHighestLast(listed: seq<Msg>, mark: Mark)
    requires IdsAgree(listed) && Unseen(listed, mark) != []
    ensures LastIsHighest(Unseen(listed, mark))
    decreases |listed|
  {
    var n := |listed| - 1;
    if !listed[n].read && Newer(listed[n], mark) {
      assert Last(Unseen(listed, mark)) == MarkOf(listed[n]);
      forall m | m in Unseen(listed, mark)
        ensures MarkLeq(MarkOf(m), MarkOf(listed[n]))
      {
        assert m in listed;
        var i :| 0 <= i < |listed| && listed[i] == m;
      }
    } else {
      assert Unseen(listed, mark) == Unseen(listed[..n], mark);
      AgreementPutsHighestLast(listed[..n], mark);
    }
  }

  lemma {:induction false} WakesAgree(sys: Sys, run: seq<Action>, cfg: Config)
    requires AgreeingRun(run) && forall w :: w in sys.woken ==> LastIsHighest(w.batch)
    ensures forall w :: w in Exec(sys, run, cfg).woken ==> LastIsHighest(w.batch)
    decreases |run|
  {
    hide Tick, LastIsHighest, IdsAgree;
    if run != [] {
      var next := Apply(sys, run[0], cfg);
      if run[0].PollNow? {
        MarkMoves(sys.b, run[0].poll, cfg);
        if Tick(sys.b, run[0].poll, cfg).1.Woke? {
          assert run[0] in run;
          AgreementPutsHighestLast(run[0].poll.messages, sys.b.mark);
        }
      }
      WakesAgree(next, run[1..], cfg);
    }
  }

  /** When ids and timestamps agree, no message is part of two successful wakes. */
  lemma {:induction false} NoMessageWakesTwice(run: seq<Action>, cfg: Config, i: nat, j: nat, m: Msg)
    requires GoodRun(run, cfg) && AgreeingRun(run) && i < j < |Exec(START, run, cfg).woken|
    ensures !(m in Exec(START, run, cfg).woken[i].batch && m in Exec(START, run, cfg).woken[j].batch)
  {
    RunKeepsMark(START, run, cfg);
    WakesAgree(START, run, cfg);
    var sys := Exec(START, run, cfg);
    assert sys.woken[i] in sys.woken;
    if m in sys.woken[i].batch && m in sys.woken[j].batch {
      assert sys.woken[i].batch[|sys.woken[i].batch| - 1] in sys.woken[i].batch;
      NewerIff(m, Last(sys.woken[i].batch));
    }
  }

  // ---------------------------------------------------------------- without that agreement

  /** Whatever the ids: a message that ranks no higher than the last one of its wake is in no later wake. */
  lemma {:induction false} CoveredNeverWakesAgain(run: seq<Action>, cfg: Config, i: nat, j: nat, m: Msg)
    requires GoodRun(run, cfg) && i < j < |Exec(START, run, cfg).woken|
    ensures var woken := Exec(START, run, cfg).woken;
            woken[i].batch != [] && (MarkLeq(MarkOf(m), Last(woken[i].batch)) ==> m !in woken[j].batch)
  {
    RunKeepsMark(START, run, cfg);
    var woken := Exec(START, run, cfg).woken;
    if m in woken[j].batch {
      assert woken[i].batch[|woken[i].batch| - 1] in woken[i].batch;
      NewerIff(m, Last(woken[i].batch));
    }
  }

  /** The tick gets as far as a prompt that is accepted: nothing holds it, and a session is there or opens. */
  predicate Takes(b: Bridge, poll: Poll, cfg: Config) {
    && poll.Listed? && poll.prompt.Accepted? && poll.opens.Some? && poll.opens.value != "" && poll.opens.value !in b.created
    && !(cfg.cooldownMs != 0 && b.lastNotifyAt != 0 && b.clock - b.lastNotifyAt < cfg.cooldownMs)
    && var batch := Unseen(poll.messages, b.mark);
       batch != [] ==> G.Gate(b.guard, batch[|batch| - 1].topicKey, b.clock, cfg.limits).1 == G.Ok
  }

  lemma {:induction false} TakenWakes(b: Bridge, poll: Poll, cfg: Config)
    requires Takes(b, poll, cfg) && Unseen(poll.messages, b.mark) != []
    ensures var (b', outcome) := Tick(b, poll, cfg);
            var batch := Unseen(poll.messages, b.mark);
            var thread := batch[|batch| - 1].topicKey;
            && outcome.Woke? && outcome.wake.batch == batch
            && b'.mark == Last(batch) && b'.clock == b.clock + poll.delay && b'.lastNotifyAt == b.clock
            && b'.guard == G.Record(G.Gate(b.guard, thread, b.clock, cfg.limits).0, thread, b.clock)
            && b'.created <= b.created + {poll.opens.value}
  {
    hide Unseen, T.Sweep, R.Sweep, G.Gate, T.PlanSession, R.RouteFor, T.Used, R.Forget, G.Record;
  }

  /**
   * The exact condition. When nothing moved the watermark since wake `i`, a poll that lists the message
   * unread and gets through wakes with it, again if it was in wake `i`, exactly if it ranks above the
   * last message of that wake.
   */
  lemma {:induction false} WakesAgainIff(run: seq<Action>, poll: Poll, cfg: Config, i: nat, m: Msg)
    requires GoodRun(run, cfg) && GoodAction(PollNow(poll), cfg) && i < |Exec(START, run, cfg).woken|
    requires var sys := Exec(START, run, cfg);
             sys.woken[i].batch != [] && sys.b.mark == Last(sys.woken[i].batch) && Takes(sys.b, poll, cfg)
    requires m in poll.messages && !m.read
    ensures var sys := Exec(START, run, cfg);
            var woken := Apply(sys, PollNow(poll), cfg).woken;
            (|woken| == |sys.woken| + 1 && m in woken[|sys.woken|].batch) <==> !MarkLeq(MarkOf(m), Last(sys.woken[i].batch))
  {
    var sys := Exec(START, run, cfg);
    hide Tick, Exec, MarkLeq, Newer, G.Gate;
    RunKeepsMark(START, run, cfg);
    NewerIff(m, sys.b.mark);
    MarkMoves(sys.b, poll, cfg);
    if Newer(m, sys.b.mark) {
      TakenWakes(sys.b, poll, cfg);
    }
  }

  const EASY: Config := Config(0, G.Limits(0, 10, 60, 10), T.Policy(10, 60000, 60000, 60000, 10), R.Policy(true, 60000, 10), 10)

  /** It happens: the later id carries the earlier timestamp, and the other message wakes a session twice. */
  lemma {:induction false} SkewedIdsWakeTwice()
    ensures var a := Msg("1", "20", false, "", "", "t", "");
            var b := Msg("2", "10", false, "", "", "t", "");
            var run := [PollNow(Listed([a, b], 0, Some("s"), Accepted)), Wait(1), PollNow(Listed([a, b], 0, Some("u"), Accepted))];
            var woken := Exec(START, run, EASY).woken;
            GoodRun(run, EASY) && |woken| == 2 && a in woken[0].batch && a in woken[1].batch
  {
    SkewedIdsAreUnseen();
    TwoWakes(Msg("1", "20", false, "", "", "t", ""), Msg("2", "10", false, "", "", "t", ""));
  }

  lemma {:induction false} TwoWakes(a: Msg, b: Msg)
    requires Unseen([a, b], Mark("", "")) == [a, b] && Unseen([a, b], MarkOf(b)) == [a]
    requires a.ts != "" && b.ts != "" && a.topicKey == "t" && b.topicKey == "t"
    ensures var run := [PollNow(Listed([a, b], 0, Some("s"), Accepted)), Wait(1), PollNow(Listed([a, b], 0, Some("u"), Accepted))];
            var woken := Exec(START, run, EASY).woken;
            GoodRun(run, EASY) && |woken| == 2 && a in woken[0].batch && a in woken[1].batch
  {
    hide Tick, Unseen, G.Gate, G.Record, Exec;
    var first := Listed([a, b], 0, Some("s"), Accepted);
    var second := Listed([a, b], 0, Some("u"), Accepted);
    GateIsOpen();
    TakenWakes(START.b, first, EASY);
    var one := Apply(START, PollNow(first), EASY);
    var two := Apply(one, Wait(1), EASY);
    assert "u" !in two.b.created;
    TakenWakes(two.b, second, EASY);
    ExecThree(START, PollNow(first), Wait(1), PollNow(second), EASY);
  }

  lemma SkewedIdsAreUnseen()
    ensures var a := Msg("1", "20", false, "", "", "t", "");
            var b := Msg("2", "10", false, "", "", "t", "");
            Unseen([a, b], Mark("", "")) == [a, b] && Unseen([a, b], MarkOf(b)) == [a]
  {
    var a := Msg("1", "20", false, "", "", "t", "");
    var b := Msg("2", "10", false, "", "", "t", "");
    assert [a, b][..1] == [a] && [a][..0] == [];
    assert TextOrder.Less("10", "20");
    assert Unseen([a], MarkOf(b)) == [a] && Unseen([a], Mark("", "")) == [a];
    assert !TextOrder.Less("10", "10") by { TextOrder.LessIrreflexive("10"); }
    assert !TextOrder.Less("2", "2") by { TextOrder.LessIrreflexive("2"); }
  }

  lemma GateIsOpen()
    ensures G.Gate(START.b.guard, "t", 0, EASY.limits).1 == G.Ok
    ensures var guard := G.Record(G.Gate(START.b.guard, "t", 0, EASY.limits).0, "t", 0);
            G.Gate(guard, "t", 1, EASY.limits).1 == G.Ok
  {
    var g := START.b.guard;
    assert G.Recent([], 0) == [];
    assert G.Gate(g, "t", 0, EASY.limits).0 == g;
    assert G.Record(g, "t", 0) == G.Guard(map["t" := G.Thread(1, 0, 0)], [0]);
    assert [0][1..] == [] && G.Recent([0], 1) == [0] + G.Recent([], 1);
  }

  lemma ExecThree(sys: Sys, a: Action, b: Action, c: Action, cfg: Config)
    ensures Exec(sys, [a, b, c], cfg) == Apply(Apply(Apply(sys, a, cfg), b, cfg), c, cfg)
  {
    hide Apply;
    var one := Apply(sys, a, cfg);
    var two := Apply(one, b, cfg);
    assert [a, b, c][1..] == [b, c] && [b, c][1..] == [c] && [c][1..] == [];
    assert Exec(sys, [a, b, c], cfg) == Exec(one, [b, c], cfg);
    assert Exec(one, [b, c], cfg) == Exec(two, [c], cfg);
    assert Exec(two, [c], cfg) == Exec(Apply(two, c, cfg), [], cfg);
  }
}
