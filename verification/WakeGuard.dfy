/** The loop guard of the wake engine (index.js). */
module WakeGuard {
  // A cooldown and a budget per thread, and a cap on wakes per hour. Times are in milliseconds.

  import opened Options

  type ThreadId = string

  /** The limits as install normalizes them. */
  datatype Limits = Limits(threadCooldownSeconds: nat, maxThreadWakes: nat, threadWindowSeconds: nat, maxWakesPerHour: nat) {
    predicate Valid() { maxThreadWakes >= 1 && threadWindowSeconds >= 60 && maxWakesPerHour >= 1 }
    function WindowMs(): nat { threadWindowSeconds * 1000 }
    function CooldownMs(): nat { threadCooldownSeconds * 1000 }
  }

  const HOUR: nat := 3600000

  datatype Thread = Thread(wakes: nat, windowStart: int, lastAt: int)

  datatype Guard = Guard(threads: map<ThreadId, Thread>, wakeTimes: seq<int>)

  datatype Verdict = Ok | Cooldown(left: int) | Budget(wakes: nat) | RateCap(wakes: nat)

  function Recent(times: seq<int>, now: int): seq<int> {
    if times == [] then []
    else (if now - times[0] < HOUR then [times[0]] else []) + Recent(times[1..], now)
  }

  /** Math.ceil of a number of milliseconds in seconds. */
  function CeilSeconds(ms: int): int {
    -((-ms) / 1000)
  }

  /** The guard after an expired window of this thread is forgotten. */
  function Forget(g: Guard, id: ThreadId, now: int, limits: Limits): Guard {
    if id in g.threads && now - g.threads[id].windowStart > limits.WindowMs() then g.(threads := g.threads - {id}) else g
  }

  /** wakeGate: the answer, and the guard it leaves behind. */
  function Gate(g: Guard, id: ThreadId, now: int, limits: Limits): (Guard, Verdict) {
    var g' := Forget(g, id, now, limits);
    var left := if id in g'.threads then CeilSeconds(limits.CooldownMs() - (now - g'.threads[id].lastAt)) else 0;
    if left > 0 then (g', Cooldown(left))
    else if id in g'.threads && g'.threads[id].wakes >= limits.maxThreadWakes then (g', Budget(g'.threads[id].wakes))
    else
      var g'' := g'.(wakeTimes := Recent(g'.wakeTimes, now));
      if |g''.wakeTimes| >= limits.maxWakesPerHour then (g'', RateCap(|g''.wakeTimes|)) else (g'', Ok)
  }

  /** recordWake. */
  function Record(g: Guard, id: ThreadId, now: int): Guard {
    var entry := if id in g.threads then g.threads[id] else Thread(0, now, 0);
    Guard(g.threads[id := entry.(wakes := entry.wakes + 1, lastAt := now)], Recent(g.wakeTimes, now) + [now])
  }

  class Runtime {
    const limits: Limits
    var threads: map<ThreadId, Thread>
    var wakeTimes: seq<int>

    constructor (limits: Limits)
      ensures this.limits == limits && View() == Guard(map[], [])
    {
      this.limits := limits;
      threads := map[];
      wakeTimes := [];
    }

    function View(): Guard
      reads this
    {
      Guard(threads, wakeTimes)
    }

    method WakeGate(id: ThreadId, now: int) returns (verdict: Verdict)
      modifies this
      ensures (View(), verdict) == Gate(old(View()), id, now, limits)
      ensures verdict == Ok ==> Room(View(), id, now, limits)
      ensures forall other :: other != id ==> (other in threads <==> other in old(threads)) && (other in threads ==> threads[other] == old(threads)[other])
    {
      if Gate(View(), id, now, limits).1 == Ok {
        GateSays(View(), id, now, limits);
      }
      if id in threads && now - threads[id].windowStart > limits.WindowMs() {
        threads := threads - {id};
      }
      if id in threads {
        var current := threads[id];
        var left := CeilSeconds(limits.CooldownMs() - (now - current.lastAt));
        if left > 0 {
          return Cooldown(left);
        }
        if current.wakes >= limits.maxThreadWakes {
          return Budget(current.wakes);
        }
      }
      wakeTimes := Recent(wakeTimes, now);
      verdict := if |wakeTimes| >= limits.maxWakesPerHour then RateCap(|wakeTimes|) else Ok;
    }

    method RecordWake(id: ThreadId, now: int)
      modifies this
      ensures View() == Record(old(View()), id, now)
      ensures id in threads && threads[id].lastAt == now && threads[id].wakes == 1 + if id in old(threads) then old(threads)[id].wakes else 0
      ensures threads[id].windowStart == if id in old(threads) then old(threads)[id].windowStart else now
      ensures forall other :: other != id ==> (other in threads <==> other in old(threads)) && (other in threads ==> threads[other] == old(threads)[other])
      ensures forall at :: at in wakeTimes <==> at == now || (at in old(wakeTimes) && now - at < HOUR)
      ensures |wakeTimes| == |LastHour(old(wakeTimes), now)| + 1
    {
      RecentMeans(wakeTimes, now);
      RecentSize(wakeTimes, now);
      var entry := if id in threads then threads[id] else Thread(0, now, 0);
      entry := entry.(wakes := entry.wakes + 1, lastAt := now);
      threads := threads[id := entry];
      wakeTimes := Recent(wakeTimes, now) + [now];
    }
  }

  lemma {:induction false} RecentMeans(times: seq<int>, now: int)
    ensures forall at :: at in Recent(times, now) <==> at in times && now - at < HOUR
  {
    if times != [] {
      RecentMeans(times[1..], now);
      assert times == [times[0]] + times[1..];
    }
  }

  // ---------------------------------------------------------------- what the gate says

  /** The thread's budget window is open. */
  predicate IsOpen(g: Guard, id: ThreadId, now: int, limits: Limits) {
    id in g.threads && now - g.threads[id].windowStart <= limits.threadWindowSeconds * 1000
  }

  /** It was woken in this window less than its cooldown ago. */
  predicate IsCooling(g: Guard, id: ThreadId, now: int, limits: Limits) {
    IsOpen(g, id, now, limits) && now - g.threads[id].lastAt < limits.threadCooldownSeconds * 1000
  }

  /** Its budget for this window is used up. */
  predicate IsSpent(g: Guard, id: ThreadId, now: int, limits: Limits) {
    IsOpen(g, id, now, limits) && g.threads[id].wakes >= limits.maxThreadWakes
  }

  /** The recorded wakes of the last hour, by position in the list. */
  function LastHour(times: seq<int>, now: int): set<nat> {
    set i: nat | i < |times| && now - times[i] < 3600000
  }

  lemma {:induction false} RecentSize(times: seq<int>, now: int)
    ensures |Recent(times, now)| == |LastHour(times, now)|
  {
    if times != [] {
      var last, before := times[|times| - 1], times[..|times| - 1];
      RecentSize(before, now);
      RecentKeeps(before, now, last);
      assert times == before + [last];
      var here: nat := |before|;
      assert LastHour(times, now) == LastHour(before, now) + if now - last < 3600000 then {here} else {};
    } else {
      assert LastHour(times, now) == {};
    }
  }

  /** A cooldown comes first, then the thread's budget, then the hour; only what is none of these is let through. */
  lemma {:induction false} VerdictIff(g: Guard, id: ThreadId, now: int, limits: Limits)
    ensures var v := Gate(g, id, now, limits).1;
            && (v.Cooldown? <==> IsCooling(g, id, now, limits))
            && (v.Budget? <==> !IsCooling(g, id, now, limits) && IsSpent(g, id, now, limits))
            && (v.RateCap? <==> !IsCooling(g, id, now, limits) && !IsSpent(g, id, now, limits) && |LastHour(g.wakeTimes, now)| >= limits.maxWakesPerHour)
  {
    RecentSize(g.wakeTimes, now);
  }

  /** The gate forgets a window that is over, of this thread only, and wake times that are an hour old. */
  lemma {:induction false} GateLeaves(g: Guard, id: ThreadId, now: int, limits: Limits)
    ensures var g' := Gate(g, id, now, limits).0;
            && (forall k :: k in g'.threads <==> k in g.threads && (k == id ==> IsOpen(g, id, now, limits)))
            && (forall k :: k in g'.threads ==> g'.threads[k] == g.threads[k])
            && (forall at :: at in g'.wakeTimes ==> at in g.wakeTimes)
            && (forall at :: at in g.wakeTimes && now - at < 3600000 ==> at in g'.wakeTimes)
  {
    hide Recent;
    RecentMeans(g.wakeTimes, now);
  }

  /** The thread may be woken now: its open window, if any, has room and has cooled down. */
  predicate ThreadRoom(g: Guard, id: ThreadId, now: int, limits: Limits) {
    id in g.threads ==>
      && g.threads[id].wakes < limits.maxThreadWakes
      && now - g.threads[id].lastAt >= limits.CooldownMs()
      && now - g.threads[id].windowStart <= limits.WindowMs()
  }

  /** So may the node: the last hour has room too. */
  predicate Room(g: Guard, id: ThreadId, now: int, limits: Limits) {
    |g.wakeTimes| < limits.maxWakesPerHour && ThreadRoom(g, id, now, limits)
  }

  // ---------------------------------------------------------------- runs

  /** A recorded wake: whose, when, and the start of the budget window it was charged to. */
  datatype Wake = Wake(id: ThreadId, at: int, start: int)

  datatype Sys = Sys(guard: Guard, clock: int, history: seq<Wake>)

  /** A tick asks the gate; when it says yes, the prompt that follows succeeds or fails. */
  datatype Action = Wait(ms: nat) | Tick(id: ThreadId, prompted: bool)

  function Apply(sys: Sys, a: Action, limits: Limits): Sys {
    match a
    case Wait(ms) => sys.(clock := sys.clock + ms)
    case Tick(id, prompted) =>
      var (g, verdict) := Gate(sys.guard, id, sys.clock, limits);
      if verdict != Ok || !prompted then sys.(guard := g)
      else
        var g' := Record(g, id, sys.clock);
        sys.(guard := g', history := sys.history + [Wake(id, sys.clock, g'.threads[id].windowStart)])
  }

  function Exec(sys: Sys, run: seq<Action>, limits: Limits): Sys
    decreases |run|
  {
    if run == [] then sys else Exec(Apply(sys, run[0], limits), run[1..], limits)
  }

  const START: Sys := Sys(Guard(map[], []), 0, [])

  // ---------------------------------------------------------------- counting wakes

  /** Wakes at a time in [lo, hi). */
  function Between(history: seq<Wake>, lo: int, hi: int): nat {
    if history == [] then 0
    else
      var last := |history| - 1;
      Between(history[..last], lo, hi) + if lo <= history[last].at < hi then 1 else 0
  }

  /** Wakes of one thread at a time in [lo, hi). */
  function ThreadBetween(history: seq<Wake>, id: ThreadId, lo: int, hi: int): nat {
    if history == [] then 0
    else
      var last := |history| - 1;
      ThreadBetween(history[..last], id, lo, hi) + if history[last].id == id && lo <= history[last].at < hi then 1 else 0
  }

  /** Wakes of one thread charged to the window that starts at `start`. */
  function Charged(history: seq<Wake>, id: ThreadId, start: int): nat {
    if history == [] then 0
    else
      var last := |history| - 1;
      Charged(history[..last], id, start) + if history[last].id == id && history[last].start == start then 1 else 0
  }

  function Times(history: seq<Wake>): (r: seq<int>)
    ensures |r| == |history| && forall i :: 0 <= i < |r| ==> r[i] == history[i].at
  {
    seq(|history|, i requires 0 <= i < |history| => history[i].at)
  }

  // ---------------------------------------------------------------- the hourly cap

  ghost predicate Ordered(history: seq<Wake>, clock: int) {
    && (forall i, j :: 0 <= i <= j < |history| ==> history[i].at <= history[j].at)
    && (forall i :: 0 <= i < |history| ==> history[i].at <= clock)
  }

  /** Every wake came with at most `max` wakes in the hour that ends with it. */
  predicate Capped(history: seq<Wake>, max: nat) {
    history != [] ==>
      var last := |history| - 1;
      Capped(history[..last], max) && Between(history, history[last].at - HOUR + 1, history[last].at + 1) <= max
  }

  lemma {:induction false} RecentKeeps(times: seq<int>, now: int, x: int)
    ensures Recent(times + [x], now) == Recent(times, now) + (if now - x < HOUR then [x] else [])
  {
    if times == [] {
    } else {
      assert (times + [x])[1..] == times[1..] + [x];
      RecentKeeps(times[1..], now, x);
    }
  }

  /** Pruning early loses nothing that a later pruning would keep. */
  lemma {:induction false} RecentAgain(times: seq<int>, then_: int, now: int)
    requires then_ <= now
    ensures Recent(Recent(times, then_), now) == Recent(times, now)
  {
    if times == [] {
    } else {
      RecentAgain(times[1..], then_, now);
      var kept := Recent(times[1..], then_);
      if then_ - times[0] < HOUR {
        assert ([times[0]] + kept)[1..] == kept;
      } else {
        assert Recent(times, then_) == kept;
      }
    }
  }

  /** The pruned list has as many entries as the last hour had wakes. */
  lemma {:induction false} RecentCounts(history: seq<Wake>, now: int)
    requires forall i :: 0 <= i < |history| ==> history[i].at <= now
    ensures |Recent(Times(history), now)| == Between(history, now - HOUR + 1, now + 1)
  {
    if history == [] {
    } else {
      var last := |history| - 1;
      RecentCounts(history[..last], now);
      assert Times(history) == Times(history[..last]) + [history[last].at];
      RecentKeeps(Times(history[..last]), now, history[last].at);
    }
  }

  lemma {:induction false} BetweenShrinks(history: seq<Wake>, lo: int, hi: int, lo': int, hi': int)
    requires forall i :: 0 <= i < |history| && lo <= history[i].at < hi ==> lo' <= history[i].at < hi'
    ensures Between(history, lo, hi) <= Between(history, lo', hi')
  {
    if history != [] {
      BetweenShrinks(history[..|history| - 1], lo, hi, lo', hi');
    }
  }

  /** Capped at every wake means capped in every window of one hour. */
  lemma {:induction false} WindowCapped(history: seq<Wake>, clock: int, max: nat, from: int)
    requires Ordered(history, clock) && Capped(history, max)
    ensures Between(history, from, from + HOUR) <= max
    decreases |history|
  {
    if history == [] {
    } else {
      var last := |history| - 1;
      if from <= history[last].at < from + HOUR {
        BetweenShrinks(history, from, from + HOUR, history[last].at - HOUR + 1, history[last].at + 1);
      } else {
        var before := history[..last];
        WindowCapped(before, clock, max, from);
      }
    }
  }

  // ---------------------------------------------------------------- the thread budget

  /** One wake of a thread and a later one: same window and a cooldown apart, or windows more than a window apart. */
  predicate Spaced(w: Wake, v: Wake, limits: Limits) {
    w.id == v.id ==>
      if w.start == v.start then v.at - w.at >= limits.CooldownMs() else w.start + limits.WindowMs() < v.start
  }

  ghost predicate Happened(history: seq<Wake>, wake: Wake) {
    exists j :: 0 <= j < |history| && history[j] == wake
  }

  /** A window opens with a wake. */
  ghost predicate Opened(history: seq<Wake>, id: ThreadId, start: int) {
    Happened(history, Wake(id, start, start))
  }

  ghost predicate Budgeted(history: seq<Wake>, limits: Limits) {
    && (forall i :: 0 <= i < |history| ==> history[i].start <= history[i].at <= history[i].start + limits.WindowMs())
    && (forall i, j :: 0 <= i < j < |history| ==> Spaced(history[i], history[j], limits))
    && (forall i :: 0 <= i < |history| ==> Opened(history, history[i].id, history[i].start))
    && (forall id, start :: Charged(history, id, start) <= limits.maxThreadWakes)
  }

  /** What the guard remembers of one thread. */
  ghost predicate Remembers(sys: Sys, id: ThreadId, limits: Limits) {
    if id in sys.guard.threads then
      var e := sys.guard.threads[id];
      && e.windowStart <= e.lastAt <= sys.clock
      && e.wakes == Charged(sys.history, id, e.windowStart) && e.wakes >= 1
      && Happened(sys.history, Wake(id, e.lastAt, e.windowStart))
      && forall i :: 0 <= i < |sys.history| && sys.history[i].id == id ==>
           sys.history[i].at <= e.lastAt &&
           (sys.history[i].start == e.windowStart || sys.history[i].start + limits.WindowMs() < e.windowStart)
    else
      forall i :: 0 <= i < |sys.history| && sys.history[i].id == id ==> sys.history[i].start + limits.WindowMs() < sys.clock
  }

  /** The pruned list is the history, pruned at some earlier time. */
  ghost predicate Prunes(sys: Sys) {
    exists at :: at <= sys.clock && sys.guard.wakeTimes == Recent(Times(sys.history), at)
  }

  ghost predicate Inv(sys: Sys, limits: Limits) {
    && Ordered(sys.history, sys.clock)
    && Capped(sys.history, limits.maxWakesPerHour)
    && Prunes(sys)
    && Budgeted(sys.history, limits)
    && forall id :: Remembers(sys, id, limits)
  }

  // ---------------------------------------------------------------- what every step keeps

  lemma {:induction false} GateKeeps(sys: Sys, id: ThreadId, limits: Limits)
    requires Inv(sys, limits)
    ensures Inv(sys.(guard := Gate(sys.guard, id, sys.clock, limits).0), limits)
  {
    var g := Forget(sys.guard, id, sys.clock, limits);
    var forgot := sys.(guard := g);
    assert Inv(forgot, limits) by {
      hide Ordered, Capped, Budgeted;
      forall other
        ensures Remembers(forgot, other, limits)
      {
        assert Remembers(sys, other, limits);
      }
      PrunesAt(sys, forgot);
    }
    PruneKeeps(forgot, limits);
  }

  lemma PrunesAt(sys: Sys, sys': Sys)
    requires Prunes(sys) && sys'.history == sys.history && sys'.guard.wakeTimes == sys.guard.wakeTimes && sys.clock <= sys'.clock
    ensures Prunes(sys')
  {
    var at :| at <= sys.clock && sys.guard.wakeTimes == Recent(Times(sys.history), at);
    assert at <= sys'.clock && sys'.guard.wakeTimes == Recent(Times(sys'.history), at);
  }

  lemma {:induction false} PruneKeeps(sys: Sys, limits: Limits)
    requires Inv(sys, limits)
    ensures var pruned := sys.(guard := sys.guard.(wakeTimes := Recent(sys.guard.wakeTimes, sys.clock)));
            Inv(pruned, limits) && pruned.guard.wakeTimes == Recent(Times(sys.history), sys.clock)
  {
    hide Ordered, Capped, Budgeted;
    var pruned := sys.(guard := sys.guard.(wakeTimes := Recent(sys.guard.wakeTimes, sys.clock)));
    var at :| at <= sys.clock && sys.guard.wakeTimes == Recent(Times(sys.history), at);
    RecentAgain(Times(sys.history), at, sys.clock);
    assert pruned.clock <= pruned.clock && pruned.guard.wakeTimes == Recent(Times(pruned.history), pruned.clock);
    forall other
      ensures Remembers(pruned, other, limits)
    {
      assert Remembers(sys, other, limits);
    }
  }

  /** What a yes means: the last hour has room, and so has the thread's open window. */
  lemma {:induction false} OkMeans(sys: Sys, id: ThreadId, limits: Limits)
    requires Inv(sys, limits) && Gate(sys.guard, id, sys.clock, limits).1 == Ok
    ensures var g := Gate(sys.guard, id, sys.clock, limits).0;
            && g.wakeTimes == Recent(Times(sys.history), sys.clock)
            && Between(sys.history, sys.clock - HOUR + 1, sys.clock + 1) < limits.maxWakesPerHour
            && (id in g.threads ==>
                  && g.threads[id].wakes < limits.maxThreadWakes
                  && sys.clock - g.threads[id].lastAt >= limits.CooldownMs()
                  && sys.clock - g.threads[id].windowStart <= limits.WindowMs())
  {
    hide Inv, Gate, Between, Recent;
    GateSays(sys.guard, id, sys.clock, limits);
    PruneKeeps(sys, limits);
    HistoryIsPast(sys, limits);
    RecentCounts(sys.history, sys.clock);
  }

  lemma HistoryIsPast(sys: Sys, limits: Limits)
    requires Inv(sys, limits)
    ensures forall i :: 0 <= i < |sys.history| ==> sys.history[i].at <= sys.clock
  {
    hide Capped, Prunes, Budgeted, Remembers;
  }

  lemma GateSays(guard: Guard, id: ThreadId, now: int, limits: Limits)
    requires Gate(guard, id, now, limits).1 == Ok
    ensures var g := Gate(guard, id, now, limits).0;
            g.wakeTimes == Recent(guard.wakeTimes, now) && Room(g, id, now, limits)
  {
    hide Recent;
  }

  /** The rule the guard enforces, read off the history of wakes alone. */
  ghost predicate MayWake(history: seq<Wake>, id: ThreadId, now: int, limits: Limits) {
    && Between(history, now - HOUR + 1, now + 1) < limits.maxWakesPerHour
    && forall i :: 0 <= i < |history| && history[i].id == id && now - history[i].start <= limits.WindowMs() ==>
         now - history[i].at >= limits.CooldownMs() && Charged(history, id, history[i].start) < limits.maxThreadWakes
  }

  /** Though it keeps only counters and a pruned list, the gate answers exactly by the history. */
  lemma {:induction false} GateIff(sys: Sys, id: ThreadId, limits: Limits)
    requires Inv(sys, limits)
    ensures Gate(sys.guard, id, sys.clock, limits).1 == Ok <==> MayWake(sys.history, id, sys.clock, limits)
  {
    hide Capped, Budgeted, Charged, Between, Recent, Prunes;
    assert Remembers(sys, id, limits);
    assert |Recent(sys.guard.wakeTimes, sys.clock)| == Between(sys.history, sys.clock - HOUR + 1, sys.clock + 1) by {
      PruneKeeps(sys, limits);
      RecentCounts(sys.history, sys.clock);
    }
    var g := Forget(sys.guard, id, sys.clock, limits);
    if id in g.threads {
      var e := g.threads[id];
      var i :| 0 <= i < |sys.history| && sys.history[i] == Wake(id, e.lastAt, e.windowStart);
    }
  }

  lemma {:induction false} RecordKeeps(sys: Sys, id: ThreadId, limits: Limits)
    requires limits.Valid() && Inv(sys, limits) && Gate(sys.guard, id, sys.clock, limits).1 == Ok
    ensures Inv(Apply(sys, Tick(id, true), limits), limits)
  {
    hide Inv, Gate, Between, Charged, Recent, Times;
    var sys' := Apply(sys, Tick(id, true), limits);
    var g := Gate(sys.guard, id, sys.clock, limits).0;
    OkMeans(sys, id, limits);
    GateKeeps(sys, id, limits);
    HourKeeps(sys, sys', WakeNow(sys.(guard := g), id), limits);
    RoomKeeps(sys.(guard := g), id, limits);
    InvIs(sys', limits);
  }

  lemma InvIs(sys: Sys, limits: Limits)
    requires Ordered(sys.history, sys.clock) && Capped(sys.history, limits.maxWakesPerHour) && Prunes(sys)
    requires Budgeted(sys.history, limits) && forall id :: Remembers(sys, id, limits)
    ensures Inv(sys, limits)
  {
    hide Ordered, Capped, Prunes, Budgeted, Remembers;
  }

  lemma {:induction false} RoomKeeps(sys: Sys, id: ThreadId, limits: Limits)
    requires limits.Valid() && Inv(sys, limits) && ThreadRoom(sys.guard, id, sys.clock, limits)
    ensures Budgeted(sys.history + [WakeNow(sys, id)], limits)
    ensures forall other :: Remembers(sys.(guard := Record(sys.guard, id, sys.clock), history := sys.history + [WakeNow(sys, id)]), other, limits)
  {
    hide Inv, Budgeted, Remembers, Record, WakeNow, ThreadRoom;
    BudgetKeeps(sys, id, limits);
    forall other
      ensures Remembers(sys.(guard := Record(sys.guard, id, sys.clock), history := sys.history + [WakeNow(sys, id)]), other, limits)
    {
      MemoryKeeps(sys, id, limits, other);
    }
  }

  lemma {:induction false} HourKeeps(sys: Sys, sys': Sys, wake: Wake, limits: Limits)
    requires Inv(sys, limits) && wake.at == sys.clock == sys'.clock && sys'.history == sys.history + [wake]
    requires Between(sys.history, sys.clock - HOUR + 1, sys.clock + 1) < limits.maxWakesPerHour
    requires sys'.guard.wakeTimes == Recent(Recent(Times(sys.history), sys.clock), sys.clock) + [sys.clock]
    ensures Ordered(sys'.history, sys'.clock) && Capped(sys'.history, limits.maxWakesPerHour) && Prunes(sys')
  {
    hide Budgeted, Remembers, Between, Recent, Prunes, Times, Capped;
    CappedOneMore(sys.history, wake, limits.maxWakesPerHour);
    RecentOneMore(sys.history, wake);
    PrunesNow(sys');
  }

  lemma PrunesNow(sys: Sys)
    requires sys.guard.wakeTimes == Recent(Times(sys.history), sys.clock)
    ensures Prunes(sys)
  {
    hide Recent, Times;
  }

  lemma {:induction false} RecentOneMore(history: seq<Wake>, wake: Wake)
    ensures Recent(Times(history + [wake]), wake.at) == Recent(Recent(Times(history), wake.at), wake.at) + [wake.at]
  {
    hide Recent;
    RecentAgain(Times(history), wake.at, wake.at);
    assert Times(history + [wake]) == Times(history) + [wake.at];
    RecentKeeps(Times(history), wake.at, wake.at);
  }

  lemma {:induction false} CappedOneMore(history: seq<Wake>, wake: Wake, max: nat)
    requires Capped(history, max) && Between(history, wake.at - HOUR + 1, wake.at + 1) < max
    ensures Capped(history + [wake], max)
  {
    assert (history + [wake])[..|history|] == history;
  }

  /** The wake that is recorded now: it opens a window or is charged to the open one. */
  function WakeNow(sys: Sys, id: ThreadId): Wake {
    Wake(id, sys.clock, if id in sys.guard.threads then sys.guard.threads[id].windowStart else sys.clock)
  }

  lemma {:induction false} ChargedOneMore(history: seq<Wake>, wake: Wake, id: ThreadId, start: int)
    ensures Charged(history + [wake], id, start) == Charged(history, id, start) + if wake.id == id && wake.start == start then 1 else 0
  {
    assert (history + [wake])[..|history|] == history;
  }

  /** Recording a wake for a thread whose window has room. */
  lemma {:induction false} BudgetKeeps(sys: Sys, id: ThreadId, limits: Limits)
    requires limits.Valid() && Inv(sys, limits) && ThreadRoom(sys.guard, id, sys.clock, limits)
    ensures Budgeted(sys.history + [WakeNow(sys, id)], limits)
  {
    hide Capped, Prunes, Charged, Happened;
    var wake := WakeNow(sys, id);
    var history' := sys.history + [wake];
    assert Remembers(sys, id, limits);
    forall i | 0 <= i < |sys.history|
      ensures Spaced(sys.history[i], wake, limits)
    {
    }
    forall other, start
      ensures Charged(history', other, start) <= limits.maxThreadWakes
    {
      ChargedOneMore(sys.history, wake, other, start);
      if id !in sys.guard.threads {
        NewWindowIsEmpty(sys.history, id, sys.clock);
      }
    }
    forall i | 0 <= i < |history'|
      ensures Opened(history', history'[i].id, history'[i].start)
    {
      if i < |sys.history| {
        HappenedStays(sys.history, wake, Wake(history'[i].id, history'[i].start, history'[i].start));
      } else {
        NowOpened(sys, id, limits);
      }
    }
  }

  lemma HappenedStays(history: seq<Wake>, wake: Wake, past: Wake)
    requires Happened(history, past)
    ensures Happened(history + [wake], past)
  {
    var j :| 0 <= j < |history| && history[j] == past;
    assert (history + [wake])[j] == past;
  }

  lemma JustHappened(history: seq<Wake>, wake: Wake)
    ensures Happened(history + [wake], wake)
  {
    assert (history + [wake])[|history|] == wake;
  }

  lemma {:induction false} NowOpened(sys: Sys, id: ThreadId, limits: Limits)
    requires Inv(sys, limits)
    ensures Opened(sys.history + [WakeNow(sys, id)], id, WakeNow(sys, id).start)
  {
    var wake := WakeNow(sys, id);
    if id in sys.guard.threads {
      assert Remembers(sys, id, limits);
      var i := ChargedTo(sys.history, id, wake.start);
      HappenedStays(sys.history, wake, Wake(id, wake.start, wake.start));
    } else {
      JustHappened(sys.history, wake);
    }
  }

  lemma {:induction false} ChargedTo(history: seq<Wake>, id: ThreadId, start: int) returns (i: nat)
    requires Charged(history, id, start) >= 1
    ensures i < |history| && history[i].id == id && history[i].start == start
  {
    var last := |history| - 1;
    if history[last].id == id && history[last].start == start {
      i := last;
    } else {
      i := ChargedTo(history[..last], id, start);
    }
  }

  lemma {:induction false} MemoryKeeps(sys: Sys, id: ThreadId, limits: Limits, other: ThreadId)
    requires limits.Valid() && Inv(sys, limits) && ThreadRoom(sys.guard, id, sys.clock, limits)
    ensures Remembers(sys.(guard := Record(sys.guard, id, sys.clock), history := sys.history + [WakeNow(sys, id)]), other, limits)
  {
    hide Capped, Prunes, Charged, Budgeted, Recent, Happened;
    var wake := WakeNow(sys, id);
    JustHappened(sys.history, wake);
    assert Remembers(sys, id, limits) && Remembers(sys, other, limits);
    ChargedOneMore(sys.history, wake, id, wake.start);
    if other in sys.guard.threads {
      HappenedStays(sys.history, wake, Wake(other, sys.guard.threads[other].lastAt, sys.guard.threads[other].windowStart));
      ChargedOneMore(sys.history, wake, other, sys.guard.threads[other].windowStart);
    }
    if id !in sys.guard.threads {
      NewWindowIsEmpty(sys.history, id, sys.clock);
    }
  }

  lemma {:induction false} NewWindowIsEmpty(history: seq<Wake>, id: ThreadId, start: int)
    requires forall i :: 0 <= i < |history| && history[i].id == id ==> history[i].start < start
    ensures Charged(history, id, start) == 0
  {
    if history != [] {
      NewWindowIsEmpty(history[..|history| - 1], id, start);
    }
  }

  lemma {:induction false} WaitKeeps(sys: Sys, ms: nat, limits: Limits)
    requires Inv(sys, limits)
    ensures Inv(Apply(sys, Wait(ms), limits), limits)
  {
    hide Capped, Budgeted, Charged, Recent;
    var sys' := Apply(sys, Wait(ms), limits);
    PrunesAt(sys, sys');
    forall id
      ensures Remembers(sys', id, limits)
    {
      assert Remembers(sys, id, limits);
    }
  }

  lemma {:induction false} StepKeeps(sys: Sys, a: Action, limits: Limits)
    requires limits.Valid() && Inv(sys, limits)
    ensures Inv(Apply(sys, a, limits), limits)
  {
    hide Inv, Record, Gate;
    match a
    case Wait(ms) => WaitKeeps(sys, ms, limits);
    case Tick(id, prompted) =>
      if Gate(sys.guard, id, sys.clock, limits).1 == Ok && prompted {
        RecordKeeps(sys, id, limits);
      } else {
        GateKeeps(sys, id, limits);
      }
  }

  lemma {:induction false} RunKeeps(sys: Sys, run: seq<Action>, limits: Limits)
    requires limits.Valid() && Inv(sys, limits)
    ensures Inv(Exec(sys, run, limits), limits)
    decreases |run|
  {
    hide Inv, Apply;
    if run != [] {
      StepKeeps(sys, run[0], limits);
      RunKeeps(Apply(sys, run[0], limits), run[1..], limits);
    }
  }

  lemma StartInv(limits: Limits)
    ensures Inv(START, limits)
  {
    assert START.guard.wakeTimes == Recent(Times(START.history), 0);
    assert forall id :: Remembers(START, id, limits);
  }

  // ---------------------------------------------------------------- what every run obeys

  /** In every run, every window of one hour holds at most maxWakesPerHour wakes. */
  lemma {:induction false} HourlyCap(run: seq<Action>, limits: Limits, from: int)
    requires limits.Valid()
    ensures Between(Exec(START, run, limits).history, from, from + HOUR) <= limits.maxWakesPerHour
  {
    StartInv(limits);
    RunKeeps(START, run, limits);
    var end := Exec(START, run, limits);
    WindowCapped(end.history, end.clock, limits.maxWakesPerHour, from);
  }

  /** In every run, one window holds at most maxThreadWakes wakes of a thread, a cooldown apart, and its windows start more than a window apart. */
  lemma {:induction false} ThreadWindows(run: seq<Action>, limits: Limits)
    requires limits.Valid()
    ensures Budgeted(Exec(START, run, limits).history, limits)
  {
    StartInv(limits);
    RunKeeps(START, run, limits);
  }

  /**
   * In every run, any interval as long as a window, both ends included, holds fewer wakes of a thread
   * than twice its budget: it meets at most two windows, and misses the wake that opened the first.
   */
  lemma {:induction false} ThreadCap(run: seq<Action>, limits: Limits, id: ThreadId, from: int)
    requires limits.Valid()
    ensures ThreadBetween(Exec(START, run, limits).history, id, from, from + limits.WindowMs() + 1) < 2 * limits.maxThreadWakes
  {
    ThreadWindows(run, limits);
    BudgetCaps(Exec(START, run, limits).history, limits, id, from);
  }

  lemma {:induction false} BudgetCaps(history: seq<Wake>, limits: Limits, id: ThreadId, from: int)
    requires limits.Valid() && Budgeted(history, limits)
    ensures ThreadBetween(history, id, from, from + limits.WindowMs() + 1) < 2 * limits.maxThreadWakes
  {
    var to := from + limits.WindowMs() + 1;
    if ThreadBetween(history, id, from, to) > 0 {
      var first, last := FirstAndLast(history, id, from, to);
      var f, l := history[first].start, history[last].start;
      assert AllIn(history, id, from, to, f, l) by {
        forall i | 0 <= i < |history| && history[i].id == id && from <= history[i].at < to
          ensures history[i].start == f || history[i].start == l
        {
          OnlyTwoWindows(history, limits, first, i, last);
        }
      }
      if f == l {
        OneWindowCount(history, id, from, to, f);
      } else {
        assert Opened(history, id, f);
        assert Happened(history, Wake(id, f, f));
        var opener :| 0 <= opener < |history| && history[opener] == Wake(id, f, f);
        assert Spaced(history[first], history[last], limits) && f < from;
        TwoWindowsCount(history, id, from, to, f, l, opener);
      }
    }
  }

  /** Three windows of a thread do not fit into an interval as long as one window. */
  lemma {:induction false} OnlyTwoWindows(history: seq<Wake>, limits: Limits, first: nat, i: nat, last: nat)
    requires Budgeted(history, limits) && first <= i <= last < |history|
    requires history[first].id == history[i].id == history[last].id
    requires history[last].at - history[first].at <= limits.WindowMs()
    ensures history[i].start == history[first].start || history[i].start == history[last].start
  {
    if first < i < last {
      assert Spaced(history[first], history[i], limits) && Spaced(history[i], history[last], limits);
    }
  }

  lemma {:induction false} FirstAndLast(history: seq<Wake>, id: ThreadId, lo: int, hi: int) returns (first: nat, last: nat)
    requires ThreadBetween(history, id, lo, hi) > 0
    ensures first <= last < |history|
    ensures history[first].id == id && lo <= history[first].at < hi && history[last].id == id && lo <= history[last].at < hi
    ensures forall i :: 0 <= i < |history| && history[i].id == id && lo <= history[i].at < hi ==> first <= i <= last
  {
    var n := |history| - 1;
    var before := history[..n];
    if history[n].id == id && lo <= history[n].at < hi {
      last := n;
      if ThreadBetween(before, id, lo, hi) > 0 {
        var l: nat;
        first, l := FirstAndLast(before, id, lo, hi);
        assert forall i :: 0 <= i < n ==> before[i] == history[i];
      } else {
        first := n;
        NoneBetween(before, id, lo, hi);
        assert forall i :: 0 <= i < n ==> before[i] == history[i];
      }
    } else {
      first, last := FirstAndLast(before, id, lo, hi);
      assert forall i :: 0 <= i < n ==> before[i] == history[i];
    }
  }

  lemma {:induction false} NoneBetween(history: seq<Wake>, id: ThreadId, lo: int, hi: int)
    requires ThreadBetween(history, id, lo, hi) == 0
    ensures forall i :: 0 <= i < |history| ==> !(history[i].id == id && lo <= history[i].at < hi)
  {
    if history != [] {
      var n := |history| - 1;
      NoneBetween(history[..n], id, lo, hi);
      assert forall i :: 0 <= i < n ==> history[..n][i] == history[i];
    }
  }

  /** The thread's wakes at these times are charged to one of two windows. */
  ghost predicate AllIn(history: seq<Wake>, id: ThreadId, lo: int, hi: int, f: int, l: int) {
    forall i :: 0 <= i < |history| && history[i].id == id && lo <= history[i].at < hi ==> history[i].start == f || history[i].start == l
  }

  lemma {:induction false} OneWindowCount(history: seq<Wake>, id: ThreadId, lo: int, hi: int, f: int)
    requires AllIn(history, id, lo, hi, f, f)
    ensures ThreadBetween(history, id, lo, hi) <= Charged(history, id, f)
  {
    if history != [] {
      OneWindowCount(history[..|history| - 1], id, lo, hi, f);
    }
  }

  /** The wake that opened the first window is charged to it and lies outside. */
  lemma {:induction false} TwoWindowsCount(history: seq<Wake>, id: ThreadId, lo: int, hi: int, f: int, l: int, opener: int)
    requires AllIn(history, id, lo, hi, f, l) && f != l && f < lo
    requires 0 <= opener < |history| ==> history[opener] == Wake(id, f, f)
    ensures ThreadBetween(history, id, lo, hi) + (if 0 <= opener < |history| then 1 else 0) <= Charged(history, id, f) + Charged(history, id, l)
  {
    if history != [] {
      TwoWindowsCount(history[..|history| - 1], id, lo, hi, f, l, opener);
    }
  }

  lemma {:induction false} AllRecent(times: seq<int>, now: int)
    requires forall i :: 0 <= i < |times| ==> now - times[i] < HOUR
    ensures Recent(times, now) == times
  {
    if times != [] {
      AllRecent(times[1..], now);
    }
  }

  /** One tick that wakes, in a run short enough that no wake time is pruned. */
  lemma {:induction false} TickWakes(sys: Sys, id: ThreadId, limits: Limits)
    requires forall i :: 0 <= i < |sys.guard.wakeTimes| ==> sys.clock - sys.guard.wakeTimes[i] < HOUR
    requires |sys.guard.wakeTimes| < limits.maxWakesPerHour && limits.threadCooldownSeconds == 0
    requires id in sys.guard.threads ==>
               sys.guard.threads[id].lastAt <= sys.clock &&
               (sys.guard.threads[id].wakes < limits.maxThreadWakes || sys.clock - sys.guard.threads[id].windowStart > limits.WindowMs())
    ensures var fresh_ := id !in sys.guard.threads || sys.clock - sys.guard.threads[id].windowStart > limits.WindowMs();
            var start := if fresh_ then sys.clock else sys.guard.threads[id].windowStart;
            Apply(sys, Tick(id, true), limits) ==
              Sys(Guard(sys.guard.threads[id := Thread(if fresh_ then 1 else sys.guard.threads[id].wakes + 1, start, sys.clock)],
                        sys.guard.wakeTimes + [sys.clock]), sys.clock, sys.history + [Wake(id, sys.clock, start)])
  {
    AllRecent(sys.guard.wakeTimes, sys.clock);
  }

  const TIGHT: Limits := Limits(0, 2, 60, 10)

  /** Two wakes, the second at the very end of the window that the first one opened, and a millisecond. */
  function Late(): Sys {
    Sys(Guard(map["t" := Thread(2, 0, 60000)], [0, 60000]), 60001, [Wake("t", 0, 0), Wake("t", 60000, 0)])
  }

  lemma LateIsReached()
    ensures Apply(Apply(Apply(Apply(START, Tick("t", true), TIGHT), Wait(60000), TIGHT), Tick("t", true), TIGHT), Wait(1), TIGHT) == Late()
  {
    hide Apply;
    TickWakes(START, "t", TIGHT);
    var a := Sys(Guard(map["t" := Thread(1, 0, 0)], [0]), 0, [Wake("t", 0, 0)]);
    assert Apply(START, Tick("t", true), TIGHT) == a;
    WaitIs(a, 60000, TIGHT);
    var b := Sys(a.guard, 60000, a.history);
    assert Apply(a, Wait(60000), TIGHT) == b;
    TickWakes(b, "t", TIGHT);
    assert Apply(b, Tick("t", true), TIGHT) == Late().(clock := 60000) by {
      assert map["t" := Thread(1, 0, 0)]["t" := Thread(2, 0, 60000)] == map["t" := Thread(2, 0, 60000)];
    }
    WaitIs(Late().(clock := 60000), 1, TIGHT);
  }

  lemma TwoMoreWakes()
    ensures Apply(Apply(Late(), Tick("t", true), TIGHT), Tick("t", true), TIGHT).history ==
              [Wake("t", 0, 0), Wake("t", 60000, 0), Wake("t", 60001, 60001), Wake("t", 60001, 60001)]
  {
    hide Apply;
    var d := Late();
    TickWakes(d, "t", TIGHT);
    var e := Sys(Guard(map["t" := Thread(1, 60001, 60001)], [0, 60000, 60001]), 60001, d.history + [Wake("t", 60001, 60001)]);
    assert Apply(d, Tick("t", true), TIGHT) == e;
    TickWakes(e, "t", TIGHT);
  }

  /** The bound is reached: a budget of two allows three wakes in one such interval. */
  lemma CapIsReached()
    ensures var run := [Tick("t", true), Wait(60000), Tick("t", true), Wait(1), Tick("t", true), Tick("t", true)];
            ThreadBetween(Exec(START, run, TIGHT).history, "t", 60000, 60000 + TIGHT.WindowMs() + 1) == 3
  {
    hide Apply, Exec, ThreadBetween, Late;
    LateIsReached();
    TwoMoreWakes();
    SixSteps(START, Tick("t", true), Wait(60000), Tick("t", true), Wait(1), Tick("t", true), Tick("t", true), TIGHT);
    CountFour(Wake("t", 0, 0), Wake("t", 60000, 0), Wake("t", 60001, 60001), Wake("t", 60001, 60001), "t", 60000, 120001);
  }

  lemma WaitIs(sys: Sys, ms: nat, limits: Limits)
    ensures Apply(sys, Wait(ms), limits) == sys.(clock := sys.clock + ms)
  {
  }

  lemma CountFour(a: Wake, b: Wake, c: Wake, d: Wake, id: ThreadId, lo: int, hi: int)
    requires a.id == b.id == c.id == d.id == id && a.at < lo && lo <= b.at < hi && lo <= c.at < hi && lo <= d.at < hi
    ensures ThreadBetween([a, b, c, d], id, lo, hi) == 3
  {
    assert [a, b, c, d][..3] == [a, b, c] && [a, b, c][..2] == [a, b] && [a, b][..1] == [a] && [a][..0] == [];
    assert ThreadBetween([a], id, lo, hi) == 0;
    assert ThreadBetween([a, b], id, lo, hi) == ThreadBetween([a], id, lo, hi) + 1;
    assert ThreadBetween([a, b, c], id, lo, hi) == ThreadBetween([a, b], id, lo, hi) + 1;
    assert ThreadBetween([a, b, c, d], id, lo, hi) == ThreadBetween([a, b, c], id, lo, hi) + 1;
  }

  lemma SixSteps(sys: Sys, a: Action, b: Action, c: Action, d: Action, e: Action, f: Action, limits: Limits)
    ensures var s1 := Apply(sys, a, limits);
            var s2 := Apply(s1, b, limits);
            var s3 := Apply(s2, c, limits);
            var s4 := Apply(s3, d, limits);
            var s5 := Apply(s4, e, limits);
            Exec(sys, [a, b, c, d, e, f], limits) == Apply(s5, f, limits)
  {
    hide Apply;
    assert [a, b, c, d, e, f][1..] == [b, c, d, e, f] && [b, c, d, e, f][1..] == [c, d, e, f] && [c, d, e, f][1..] == [d, e, f];
    assert [d, e, f][1..] == [e, f] && [e, f][1..] == [f] && [f][1..] == [];
    var s3 := Apply(Apply(Apply(sys, a, limits), b, limits), c, limits);
    assert Exec(Apply(Apply(sys, a, limits), b, limits), [c, d, e, f], limits) == Exec(s3, [d, e, f], limits);
    assert Exec(Apply(sys, a, limits), [b, c, d, e, f], limits) == Exec(s3, [d, e, f], limits);
    assert Exec(sys, [a, b, c, d, e, f], limits) == Exec(s3, [d, e, f], limits);
    var s5 := Apply(Apply(s3, d, limits), e, limits);
    assert Exec(Apply(s3, d, limits), [e, f], limits) == Exec(s5, [f], limits);
  }
}
