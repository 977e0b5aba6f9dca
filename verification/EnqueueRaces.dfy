/** Several processes that enqueue at once: the count and the write of `enqueue` are separate steps (capabilities.mjs). */
module EnqueueRaces {
  import opened Options
  import opened Commands
  import opened CommandQueue
  import QL = QueueLifecycle
  import ObjectKeys

  type Pid = nat

  /** The queue, and the processes that found room and have not written their record yet. */
  datatype Sys = Sys(h: QL.History, standing: set<Pid>)

  /** Other is an operation of any process other than enqueue. A process may die between its two steps. */
  datatype Action =
    | Count(p: Pid)
    | WriteNew(p: Pid, id: Id, capability: string, params: string, now: Millis)
    | Die(p: Pid)
    | Other(a: QL.Action)

  ghost function Apply(s: Sys, policy: Policy, a: Action): Sys {
    match a
    case Count(p) =>
      if p in s.standing || |Active(s.h.disk)| >= policy.maxPending then s else s.(standing := s.standing + {p})
    case WriteNew(p, id, capability, params, now) =>
      if p !in s.standing || id in s.h.disk.files then s
      else s.(h := s.h.(disk := s.h.disk.(files := s.h.disk.files[id := NewRecord(id, capability, params, now)])), standing := s.standing - {p})
    case Die(p) => s.(standing := s.standing - {p})
    case Other(op) => if op.Enqueue? then s else s.(h := QL.Apply(s.h, policy, op))
  }

  ghost function Exec(s: Sys, policy: Policy, run: seq<Action>): Sys
    decreases |run|
  {
    if run == [] then s else Exec(Apply(s, policy, run[0]), policy, run[1..])
  }

  const START: Sys := Sys(QL.History(Disk(map[], map[]), multiset{}), {})

  /** Only these processes enqueue. */
  predicate EnqueuedBy(procs: set<Pid>, run: seq<Action>) {
    forall i :: 0 <= i < |run| && run[i].Count? ==> run[i].p in procs
  }

  ghost predicate Inv(s: Sys, policy: Policy, procs: set<Pid>) {
    && QL.Inv(s.h) && s.standing <= procs
    && |Active(s.h.disk)| + |s.standing| < policy.maxPending + |procs|
  }

  lemma {:induction false} OthersKeep(h: QL.History, policy: Policy, op: QL.Action)
    requires QL.Inv(h) && !op.Enqueue?
    ensures QL.Inv(QL.Apply(h, policy, op)) && |Active(QL.Apply(h, policy, op).disk)| <= |Active(h.disk)|
  {
    hide QL.Inv, Active, QL.AllMove;
    match op {
      case Claim(max, bridge, now) => QL.ClaimKeeps(h, policy, max, bridge, now);
      case Complete(id, report, now) => QL.CompleteKeeps(h, policy, id, report, now);
      case Sweep(now) => QL.SweepKeeps(h, policy, now);
    }
    ObjectKeys.SubsetSize(Active(QL.Apply(h, policy, op).disk), Active(h.disk));
  }

  lemma {:induction false} StepKeeps(s: Sys, policy: Policy, procs: set<Pid>, a: Action)
    requires Inv(s, policy, procs) && (a.Count? ==> a.p in procs)
    ensures Inv(Apply(s, policy, a), policy, procs)
  {
    hide QL.Inv, Active, QL.Apply;
    match a
    case Count(p) => ObjectKeys.SubsetSize(s.standing + {p}, procs);
    case WriteNew(p, id, capability, params, now) =>
      if p in s.standing && id !in s.h.disk.files {
        QL.NewRecordKeeps(s.h, id, capability, params, now);
      }
    case Die(p) =>
    case Other(op) =>
      if !op.Enqueue? { OthersKeep(s.h, policy, op); }
  }

  lemma {:induction false} RunKeeps(s: Sys, policy: Policy, procs: set<Pid>, run: seq<Action>)
    requires Inv(s, policy, procs) && EnqueuedBy(procs, run)
    ensures Inv(Exec(s, policy, run), policy, procs)
    decreases |run|
  {
    hide Inv, Apply;
    if run != [] {
      StepKeeps(s, policy, procs, run[0]);
      RunKeeps(Apply(s, policy, run[0]), policy, procs, run[1..]);
    }
  }

  /**
   * However the two steps of several enqueuing processes interleave with each other and with all other
   * operations: the unfinished commands, together with those whose write is still to come, stay within
   * maxPending and one for every enqueuing process but one.
   */
  lemma {:induction false} UnfinishedIsBounded(policy: Policy, procs: set<Pid>, run: seq<Action>)
    requires procs != {} && EnqueuedBy(procs, run)
    ensures var s := Exec(START, policy, run);
            |Active(s.h.disk)| + |s.standing| <= policy.maxPending + |procs| - 1
  {
    assert Active(START.h.disk) == {};
    RunKeeps(START, policy, procs, run);
  }

  // ---------------------------------------------------------------- the bound is reached

  function Name(i: nat): Id {
    seq(i + 1, _ => 'a')
  }

  /** One process after the other, up to the n-th, counts. */
  function Counts(n: nat): seq<Action> {
    if n == 0 then [] else Counts(n - 1) + [Count(n - 1)]
  }

  /** One process after the other, up to the n-th, writes a record. */
  function Writes(n: nat, from: nat): seq<Action> {
    if n == 0 then [] else Writes(n - 1, from) + [WriteNew(n - 1, Name(from + n - 1), "bridge.status", "null", 0)]
  }

  /** A single process that enqueues k commands. */
  function Fill(k: nat): seq<Action> {
    if k == 0 then [] else Fill(k - 1) + [Count(0), WriteNew(0, Name(k - 1), "bridge.status", "null", 0)]
  }

  function FirstPids(n: nat): (r: set<Pid>)
    ensures forall p: Pid :: p in r <==> p < n
  {
    if n == 0 then {} else FirstPids(n - 1) + {n - 1}
  }

  /** k unfinished commands with the first k names, and the first n processes standing. */
  ghost predicate Holding(s: Sys, k: nat, standing: set<Pid>) {
    && QL.Inv(s.h) && |Active(s.h.disk)| == k && s.standing == standing
    && forall i :: i >= k ==> Name(i) !in s.h.disk.files
  }

  lemma {:induction false} ExecAppend(s: Sys, policy: Policy, first: seq<Action>, rest: seq<Action>)
    ensures Exec(s, policy, first + rest) == Exec(Exec(s, policy, first), policy, rest)
    decreases |first|
  {
    hide Apply;
    if first == [] {
      assert first + rest == rest;
    } else {
      assert (first + rest)[1..] == first[1..] + rest;
      ExecAppend(Apply(s, policy, first[0]), policy, first[1..], rest);
    }
  }

  lemma ExecOne(s: Sys, policy: Policy, a: Action)
    ensures Exec(s, policy, [a]) == Apply(s, policy, a)
  {
    hide Apply;
    assert Exec(Apply(s, policy, a), policy, []) == Apply(s, policy, a);
  }

  lemma {:induction false} WritesOne(s: Sys, policy: Policy, p: Pid, k: nat, standing: set<Pid>)
    requires Holding(s, k, standing) && p in standing
    ensures Holding(Apply(s, policy, WriteNew(p, Name(k), "bridge.status", "null", 0)), k + 1, standing - {p})
  {
    hide QL.Inv, Active;
    assert Name(k) !in s.h.disk.files;
    QL.NewRecordKeeps(s.h, Name(k), "bridge.status", "null", 0);
    forall i | i >= k + 1
      ensures Name(i) != Name(k) && Name(i) !in s.h.disk.files
    {
      assert |Name(i)| != |Name(k)|;
    }
  }

  lemma {:induction false} OneMore(s: Sys, policy: Policy, k: nat)
    requires Holding(s, k, {}) && k < policy.maxPending
    ensures Holding(Exec(s, policy, [Count(0), WriteNew(0, Name(k), "bridge.status", "null", 0)]), k + 1, {})
  {
    var write := WriteNew(0, Name(k), "bridge.status", "null", 0);
    var t := Apply(s, policy, Count(0));
    assert Holding(t, k, {0});
    hide Apply, Holding, Name;
    assert [Count(0)] + [write] == [Count(0), write];
    ExecAppend(s, policy, [Count(0)], [write]);
    ExecOne(s, policy, Count(0));
    ExecOne(t, policy, write);
    WritesOne(t, policy, 0, k, {0});
    assert {0} - {0} == {};
  }

  lemma {:induction false} FillHolds(policy: Policy, k: nat)
    requires k < policy.maxPending
    ensures Holding(Exec(START, policy, Fill(k)), k, {}) && EnqueuedBy({0}, Fill(k))
  {
    if k == 0 {
      assert Active(START.h.disk) == {};
    } else {
      hide Apply, Holding, Name;
      FillHolds(policy, k - 1);
      var s := Exec(START, policy, Fill(k - 1));
      OneMore(s, policy, k - 1);
      ExecAppend(START, policy, Fill(k - 1), [Count(0), WriteNew(0, Name(k - 1), "bridge.status", "null", 0)]);
    }
  }

  lemma CountsOne(s: Sys, policy: Policy, p: Pid, k: nat, standing: set<Pid>)
    requires Holding(s, k, standing) && p !in standing && k < policy.maxPending
    ensures Holding(Apply(s, policy, Count(p)), k, standing + {p})
  {
    hide QL.Inv, Active;
  }

  lemma {:induction false} CountsHold(s: Sys, policy: Policy, k: nat, n: nat)
    requires Holding(s, k, {}) && k < policy.maxPending
    ensures Holding(Exec(s, policy, Counts(n)), k, FirstPids(n)) && EnqueuedBy(FirstPids(n), Counts(n))
  {
    hide Holding, Apply;
    if n > 0 {
      CountsHold(s, policy, k, n - 1);
      CountsOne(Exec(s, policy, Counts(n - 1)), policy, n - 1, k, FirstPids(n - 1));
      ExecAppend(s, policy, Counts(n - 1), [Count(n - 1)]);
      ExecOne(Exec(s, policy, Counts(n - 1)), policy, Count(n - 1));
    }
  }

  lemma {:induction false} WritesHold(s: Sys, policy: Policy, k: nat, standing: set<Pid>, n: nat)
    requires Holding(s, k, standing) && FirstPids(n) <= standing
    ensures Holding(Exec(s, policy, Writes(n, k)), k + n, standing - FirstPids(n)) && EnqueuedBy({}, Writes(n, k))
  {
    hide Holding, Apply, Name;
    if n == 0 {
      assert standing - FirstPids(0) == standing;
    } else {
      WritesHold(s, policy, k, standing, n - 1);
      var t := Exec(s, policy, Writes(n - 1, k));
      var write := WriteNew(n - 1, Name(k + n - 1), "bridge.status", "null", 0);
      ExecAppend(s, policy, Writes(n - 1, k), [write]);
      ExecOne(t, policy, write);
      assert n - 1 in FirstPids(n) && n - 1 !in FirstPids(n - 1);
      WritesOne(t, policy, n - 1, k + n - 1, standing - FirstPids(n - 1));
      assert standing - FirstPids(n - 1) - {n - 1} == standing - FirstPids(n);
    }
  }

  function RaceRun(policy: Policy, n: nat): seq<Action>
    requires policy.maxPending >= 1
  {
    Fill(policy.maxPending - 1) + Counts(n) + Writes(n, policy.maxPending - 1)
  }

  /** For any limit and any number of enqueuing processes: all count while one place is left, then all write. */
  lemma {:induction false} BoundIsReached(policy: Policy, n: nat)
    requires policy.maxPending >= 1 && n >= 1
    ensures EnqueuedBy(FirstPids(n), RaceRun(policy, n)) && |FirstPids(n)| == n
    ensures |Active(Exec(START, policy, RaceRun(policy, n)).h.disk)| == policy.maxPending + n - 1
  {
    var k := policy.maxPending - 1;
    hide Apply, Fill, Counts, Writes, QL.Inv, Active;
    FillHolds(policy, k);
    var s := Exec(START, policy, Fill(k));
    CountsHold(s, policy, k, n);
    var t := Exec(s, policy, Counts(n));
    WritesHold(t, policy, k, FirstPids(n), n);
    ExecAppend(START, policy, Fill(k) + Counts(n), Writes(n, k));
    ExecAppend(START, policy, Fill(k), Counts(n));
    assert 0 in FirstPids(n);
    PidCount(n);
  }

  lemma {:induction false} PidCount(n: nat)
    ensures |FirstPids(n)| == n
  {
    if n > 0 {
      PidCount(n - 1);
      assert FirstPids(n) == FirstPids(n - 1) + {n - 1};
    }
  }
}
