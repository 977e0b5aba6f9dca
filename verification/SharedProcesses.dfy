/** Several processes on one state.json (store.mjs): every interleaving of the steps of load and save. */
module SharedProcesses {
  // A process reads the file, merges what it read into memory, changes its memory, writes a private
  // temporary copy, and renames that copy over the file.

  import opened Options
  import opened SharedState

  datatype Sys = Sys(disk: Option<State>, mem: map<Pid, State>, buf: map<Pid, State>, tmp: map<Pid, State>, clock: nat)

  datatype Action =
    | ReadFile(p: Pid)
    | MergeIn(p: Pid)
    | Mark(p: Pid, ids: seq<Id>)
    | SetEntry(p: Pid, id: Id, info: map<string, string>)
    | Snapshot(p: Pid)
    | Rename(p: Pid)
    | Wait(ms: nat)

  /** A step whose process is not ready for it changes nothing. */
  function Apply(sys: Sys, a: Action): Sys {
    match a
    case ReadFile(p) => sys.(buf := sys.buf[p := sys.disk.Or(EMPTY)])
    case MergeIn(p) =>
      if p !in sys.buf then sys
      else sys.(mem := sys.mem[p := if p in sys.mem then Merge(sys.mem[p], sys.buf[p]) else sys.buf[p]], buf := sys.buf - {p})
    case Mark(p, ids) => if p !in sys.mem then sys else sys.(mem := sys.mem[p := Marked(sys.mem[p], ids, sys.clock)])
    case SetEntry(p, id, info) =>
      if p !in sys.mem then sys else sys.(mem := sys.mem[p := Stamped(sys.mem[p], id, info, sys.clock)])
    case Snapshot(p) => if p !in sys.mem then sys else sys.(tmp := sys.tmp[p := sys.mem[p]])
    case Rename(p) => if p !in sys.tmp then sys else sys.(disk := Some(sys.tmp[p]), tmp := sys.tmp - {p})
    case Wait(ms) => sys.(clock := sys.clock + ms)
  }

  function Exec(sys: Sys, run: seq<Action>): Sys
    decreases |run|
  {
    if run == [] then sys else Exec(Apply(sys, run[0]), run[1..])
  }

  /** Known on disk or in the memory of some process. */
  ghost predicate Known(sys: Sys, f: Fact) {
    Knows(sys.disk.Or(EMPTY), f) || exists p :: p in sys.mem && Knows(sys.mem[p], f)
  }

  /** The facts that one step of a process puts into its own memory. */
  predicate Creates(sys: Sys, a: Action, f: Fact) {
    match a
    case Mark(p, ids) => p in sys.mem && f.IsRead? && f.id in ids && f.id != ""
    case SetEntry(p, id, _) => p in sys.mem && f.IsStamped? && f.id == id && f.age <= sys.clock + 1
    case _ => false
  }

  ghost predicate Made(sys: Sys, run: seq<Action>, f: Fact)
    decreases |run|
  {
    run != [] && (Creates(sys, run[0], f) || Made(Apply(sys, run[0]), run[1..], f))
  }

  // ---------------------------------------------------------------- what every step keeps

  /** No stamp comes from the future. */
  ghost predicate Timely(s: State, clock: nat) {
    forall id :: id in s.delivery ==> Age(s.delivery[id]) <= clock + 1
  }

  /** Everything that `s` knows was on disk at the start or is in some memory. */
  ghost predicate Covered(base: State, mem: map<Pid, State>, s: State) {
    forall f :: Knows(s, f) ==> Knows(base, f) || exists p :: p in mem && Knows(mem[p], f)
  }

  ghost predicate Sound(base: State, sys: Sys, s: State) {
    Below(base, s) && Timely(s, sys.clock) && Covered(base, sys.mem, s)
  }

  ghost predicate Inv(base: State, sys: Sys) {
    && Sound(base, sys, sys.disk.Or(EMPTY))
    && (forall p :: p in sys.mem ==> Sound(base, sys, sys.mem[p]))
    && (forall p :: p in sys.buf ==> Sound(base, sys, sys.buf[p]))
    && (forall p :: p in sys.tmp ==> p in sys.mem && Sound(base, sys, sys.tmp[p]) && Below(sys.tmp[p], sys.mem[p]))
  }

  /** Memories only learn. */
  ghost predicate Grown(mem: map<Pid, State>, mem': map<Pid, State>) {
    forall p :: p in mem ==> p in mem' && Below(mem[p], mem'[p])
  }

  lemma {:induction false} SoundCarries(base: State, sys: Sys, sys': Sys, s: State)
    requires Sound(base, sys, s) && sys.clock <= sys'.clock && Grown(sys.mem, sys'.mem)
    ensures Sound(base, sys', s)
  {
    forall f | Knows(s, f) && !Knows(base, f)
      ensures exists p :: p in sys'.mem && Knows(sys'.mem[p], f)
    {
      var p :| p in sys.mem && Knows(sys.mem[p], f);
      assert p in sys'.mem && Knows(sys'.mem[p], f);
    }
  }

  /** A process may replace its memory by anything that knows more and is timely. */
  lemma {:induction false} Learns(base: State, sys: Sys, p: Pid, s: State)
    requires Inv(base, sys) && Below(base, s) && Timely(s, sys.clock) && (p in sys.mem ==> Below(sys.mem[p], s))
    ensures Grown(sys.mem, sys.mem[p := s]) && Inv(base, sys.(mem := sys.mem[p := s]))
  {
    hide Below, Timely;
    var sys' := sys.(mem := sys.mem[p := s]);
    assert Grown(sys.mem, sys'.mem) by { BelowIsReflexive(); }
    assert Covered(base, sys'.mem, s) by {
      assert sys'.mem[p] == s;
    }
    assert Sound(base, sys', s);
    forall x: State | Sound(base, sys, x)
      ensures Sound(base, sys', x)
    {
      SoundCarries(base, sys, sys', x);
    }
    forall q | q in sys.tmp
      ensures q in sys'.mem && Sound(base, sys', sys.tmp[q]) && Below(sys.tmp[q], sys'.mem[q])
    {
      BelowIsTransitive(sys.tmp[q], sys.mem[q], sys'.mem[q]);
    }
  }

  lemma BelowIsReflexive()
    ensures forall s :: Below(s, s)
  {
  }

  lemma BelowIsTransitive(a: State, b: State, c: State)
    requires Below(a, b) && Below(b, c)
    ensures Below(a, c)
  {
  }

  lemma {:induction false} MarkedLearns(s: State, ids: seq<Id>, now: nat, f: Fact)
    ensures Knows(Marked(s, ids, now), f) <==> Knows(s, f) || (f.IsRead? && f.id in ids && f.id != "")
  {
  }

  lemma {:induction false} StampedLearns(s: State, id: Id, info: map<string, string>, now: nat, f: Fact)
    requires Timely(s, now)
    ensures Knows(Stamped(s, id, info, now), f) <==> Knows(s, f) || (f.IsStamped? && f.id == id && f.age <= now + 1)
  {
  }

  /** Every step keeps the invariant, and no memory forgets. */
  lemma {:induction false} StepKeeps(base: State, sys: Sys, a: Action)
    requires Inv(base, sys)
    ensures Inv(base, Apply(sys, a)) && Grown(sys.mem, Apply(sys, a).mem)
  {
    hide Below, Timely, Covered, Merge, Marked, Stamped;
    BelowIsReflexive();
    match a
    case ReadFile(p) =>
      assert Inv(base, Apply(sys, a));
    case MergeIn(p) =>
      if p in sys.buf {
        var s := if p in sys.mem then Merge(sys.mem[p], sys.buf[p]) else sys.buf[p];
        if p in sys.mem {
          MergeIsAbove(sys.mem[p], sys.buf[p]);
          BelowIsTransitive(base, sys.mem[p], s);
          MergeIsTimely(sys.mem[p], sys.buf[p], sys.clock);
        }
        Learns(base, sys, p, s);
      }
    case Mark(p, ids) =>
      if p in sys.mem {
        MarkedIsAbove(sys.mem[p], ids, sys.clock);
        BelowIsTransitive(base, sys.mem[p], Marked(sys.mem[p], ids, sys.clock));
        Learns(base, sys, p, Marked(sys.mem[p], ids, sys.clock));
      }
    case SetEntry(p, id, info) =>
      if p in sys.mem {
        StampedIsAbove(sys.mem[p], id, info, sys.clock);
        BelowIsTransitive(base, sys.mem[p], Stamped(sys.mem[p], id, info, sys.clock));
        Learns(base, sys, p, Stamped(sys.mem[p], id, info, sys.clock));
      }
    case Snapshot(p) =>
    case Rename(p) =>
    case Wait(ms) =>
      var sys' := Apply(sys, a);
      forall x: State | Sound(base, sys, x)
        ensures Sound(base, sys', x)
      {
        SoundCarries(base, sys, sys', x);
      }
  }

  lemma MergeIsTimely(a: State, b: State, clock: nat)
    requires Timely(a, clock) && Timely(b, clock)
    ensures Timely(Merge(a, b), clock)
  {
  }

  lemma MarkedIsAbove(s: State, ids: seq<Id>, now: nat)
    requires Timely(s, now)
    ensures Below(s, Marked(s, ids, now)) && Timely(Marked(s, ids, now), now)
  {
  }

  lemma StampedIsAbove(s: State, id: Id, info: map<string, string>, now: nat)
    requires Timely(s, now)
    ensures Below(s, Stamped(s, id, info, now)) && Timely(Stamped(s, id, info, now), now)
  {
  }

  // ---------------------------------------------------------------- conservation

  /** One step forgets nothing and invents nothing. */
  lemma {:induction false} StepConserves(base: State, sys: Sys, a: Action, f: Fact)
    requires Inv(base, sys)
    ensures Known(Apply(sys, a), f) <==> Known(sys, f) || Creates(sys, a, f)
  {
    var sys' := Apply(sys, a);
    StepKeeps(base, sys, a);
    if Known(sys, f) {
      StepForgetsNothing(base, sys, a, f);
    }
    if Creates(sys, a, f) {
      StepForgetsNothing(base, sys, a, f);
      StepLearns(base, sys, a, f);
    }
    if Known(sys', f) {
      StepInventsNothing(base, sys, a, f);
    }
  }

  lemma {:induction false} StepForgetsNothing(base: State, sys: Sys, a: Action, f: Fact)
    requires Inv(base, sys)
    ensures Known(sys, f) ==> Known(Apply(sys, a), f)
  {
    hide Knows, Merge, Marked, Stamped, Timely;
    var sys' := Apply(sys, a);
    StepKeeps(base, sys, a);
    if Knows(sys.disk.Or(EMPTY), f) && !Knows(base, f) {
      var p :| p in sys.mem && Knows(sys.mem[p], f);
      assert p in sys'.mem && Knows(sys'.mem[p], f);
    } else if Known(sys, f) && !Knows(base, f) {
      var p :| p in sys.mem && Knows(sys.mem[p], f);
      assert p in sys'.mem && Knows(sys'.mem[p], f);
    }
  }

  lemma {:induction false} StepLearns(base: State, sys: Sys, a: Action, f: Fact)
    requires Inv(base, sys) && Creates(sys, a, f)
    ensures Known(Apply(sys, a), f)
  {
    hide Knows, Merge, Marked, Stamped, Timely;
    var sys' := Apply(sys, a);
    match a
    case Mark(p, ids) =>
      MarkedLearns(sys.mem[p], ids, sys.clock, f);
      assert p in sys'.mem && Knows(sys'.mem[p], f);
    case SetEntry(p, id, info) =>
      StampedLearns(sys.mem[p], id, info, sys.clock, f);
      assert p in sys'.mem && Knows(sys'.mem[p], f);
  }

  lemma {:induction false} StepInventsNothing(base: State, sys: Sys, a: Action, f: Fact)
    requires Inv(base, sys) && Known(Apply(sys, a), f)
    ensures Known(sys, f) || Creates(sys, a, f)
  {
    hide Knows, Merge, Marked, Stamped, Timely;
    var sys' := Apply(sys, a);
    if Knows(sys'.disk.Or(EMPTY), f) {
      if sys'.disk != sys.disk {
        assert a.Rename? && Knows(sys.tmp[a.p], f);
        assert Knows(sys.mem[a.p], f);
      }
    } else {
      var p :| p in sys'.mem && Knows(sys'.mem[p], f);
      match a
      case MergeIn(q) =>
        if p == q && q in sys.buf {
          if q in sys.mem { MergeKnows(sys.mem[q], sys.buf[q], f); }
          if Knows(sys.buf[q], f) { BufferIsKnown(base, sys, q, f); }
        }
      case Mark(q, ids) =>
        if p == q { MarkedLearns(sys.mem[q], ids, sys.clock, f); }
      case SetEntry(q, id, info) =>
        if p == q { StampedLearns(sys.mem[q], id, info, sys.clock, f); }
      case _ =>
    }
  }

  lemma BufferIsKnown(base: State, sys: Sys, p: Pid, f: Fact)
    requires Inv(base, sys) && p in sys.buf && Knows(sys.buf[p], f)
    ensures Known(sys, f)
  {
    hide Knows, Timely;
  }

  /** Processes that have not loaded yet, over whatever the file holds. */
  ghost predicate Fresh(sys: Sys) {
    sys.mem == map[] && sys.buf == map[] && sys.tmp == map[] && Timely(sys.disk.Or(EMPTY), sys.clock)
  }

  lemma FreshInv(sys: Sys)
    requires Fresh(sys)
    ensures Inv(sys.disk.Or(EMPTY), sys)
  {
  }

  /**
   * What is known after a run is what was known before it and what its marks and stamps added: no
   * read mark is lost and no id's newest stamp goes back, whatever the interleaving.
   */
  lemma {:induction false} RunConserves(base: State, sys: Sys, run: seq<Action>, f: Fact)
    requires Inv(base, sys)
    ensures Inv(base, Exec(sys, run))
    ensures Known(Exec(sys, run), f) <==> Known(sys, f) || Made(sys, run, f)
    decreases |run|
  {
    hide Inv, Apply, Known, Creates;
    if run == [] {
    } else {
      StepKeeps(base, sys, run[0]);
      StepConserves(base, sys, run[0], f);
      RunConserves(base, Apply(sys, run[0]), run[1..], f);
    }
  }

  lemma {:induction false} KnowledgeIsKept(start: Sys, run: seq<Action>, more: seq<Action>, f: Fact)
    requires Fresh(start)
    ensures Known(Exec(start, run), f) ==> Known(Exec(Exec(start, run), more), f)
    ensures Known(Exec(start, run), f) <==> Known(start, f) || Made(start, run, f)
  {
    var base := start.disk.Or(EMPTY);
    FreshInv(start);
    RunConserves(base, start, run, f);
    RunConserves(base, Exec(start, run), more, f);
  }

  // ---------------------------------------------------------------- everyone saves once

  /** _saveState by one process with nobody in between. */
  function Save(p: Pid): seq<Action> {
    [ReadFile(p), MergeIn(p), Snapshot(p), Rename(p)]
  }

  function SaveAll(order: seq<Pid>): seq<Action> {
    if order == [] then [] else Save(order[0]) + SaveAll(order[1..])
  }

  lemma {:induction false} SaveEffect(sys: Sys, p: Pid)
    requires p in sys.mem
    ensures var s := Merge(sys.mem[p], sys.disk.Or(EMPTY));
            Exec(sys, Save(p)) == sys.(disk := Some(s), mem := sys.mem[p := s], buf := sys.buf - {p}, tmp := sys.tmp - {p})
  {
    hide Merge;
    var s := Merge(sys.mem[p], sys.disk.Or(EMPTY));
    var one := Apply(sys, ReadFile(p));
    var two := Apply(one, MergeIn(p));
    assert two == sys.(mem := sys.mem[p := s], buf := sys.buf - {p});
    var three := Apply(two, Snapshot(p));
    var four := Apply(three, Rename(p));
    assert four == two.(disk := Some(s), tmp := sys.tmp - {p});
    ExecFour(sys, ReadFile(p), MergeIn(p), Snapshot(p), Rename(p));
  }

  lemma ExecFour(sys: Sys, a: Action, b: Action, c: Action, d: Action)
    ensures Exec(sys, [a, b, c, d]) == Apply(Apply(Apply(Apply(sys, a), b), c), d)
  {
    hide Apply;
    assert [a, b, c, d][1..] == [b, c, d] && [b, c, d][1..] == [c, d] && [c, d][1..] == [d] && [d][1..] == [];
    assert Exec(sys, [a, b, c, d]) == Exec(Apply(sys, a), [b, c, d]);
    assert Exec(Apply(sys, a), [b, c, d]) == Exec(Apply(Apply(sys, a), b), [c, d]);
    assert Exec(Apply(Apply(sys, a), b), [c, d]) == Exec(Apply(Apply(Apply(sys, a), b), c), [d]);
  }

  lemma {:induction false} ExecConcat(sys: Sys, left: seq<Action>, right: seq<Action>)
    ensures Exec(sys, left + right) == Exec(Exec(sys, left), right)
    decreases |left|
  {
    hide Apply;
    if left == [] {
      assert left + right == right;
    } else {
      assert (left + right)[1..] == left[1..] + right;
      ExecConcat(Apply(sys, left[0]), left[1..], right);
    }
  }

  /** Once every process has saved, one after another in any order, the file knows everything. */
  lemma {:induction false} SavesReachDisk(sys: Sys, order: seq<Pid>, f: Fact)
    requires forall p :: p in order ==> p in sys.mem
    requires Known(sys, f) ==> Knows(sys.disk.Or(EMPTY), f) || exists p :: p in order && p in sys.mem && Knows(sys.mem[p], f)
    ensures Known(sys, f) ==> Knows(Exec(sys, SaveAll(order)).disk.Or(EMPTY), f)
    decreases |order|
  {
    hide Merge, Apply, Knows, Save;
    if order == [] {
    } else {
      var p := order[0];
      var sys' := Exec(sys, Save(p));
      SaveEffect(sys, p);
      ExecConcat(sys, Save(p), SaveAll(order[1..]));
      MergeKnows(sys.mem[p], sys.disk.Or(EMPTY), f);
      if Known(sys, f) {
        if !Knows(sys'.disk.value, f) {
          var q :| q in order && q in sys.mem && Knows(sys.mem[q], f);
          assert q in order[1..] && q in sys'.mem && Knows(sys'.mem[q], f);
        }
        assert Known(sys', f);
      }
      SavesReachDisk(sys', order[1..], f);
    }
  }

  lemma {:induction false} AllSavedIsOnDisk(sys: Sys, order: seq<Pid>, f: Fact)
    requires forall p :: p in order <==> p in sys.mem
    ensures Known(sys, f) ==> Knows(Exec(sys, SaveAll(order)).disk.Or(EMPTY), f)
  {
    SavesReachDisk(sys, order, f);
  }

  /** A process that dies between marking and renaming takes its marks with it, so "stays alive" is needed. */
  lemma UnsavedMarksAreOnlyInMemory()
    ensures var run := [ReadFile(1), MergeIn(1), Mark(1, ["m"])];
            var sys := Exec(Sys(None, map[], map[], map[], 5), run);
            Known(sys, IsRead("m")) && !Knows(sys.disk.Or(EMPTY), IsRead("m"))
  {
    var start := Sys(None, map[], map[], map[], 5);
    var one := Apply(start, ReadFile(1));
    var two := Apply(one, MergeIn(1));
    var three := Apply(two, Mark(1, ["m"]));
    ExecFour(start, ReadFile(1), MergeIn(1), Mark(1, ["m"]), Wait(0));
    var run := [ReadFile(1), MergeIn(1), Mark(1, ["m"])];
    ExecConcat(start, run, [Wait(0)]);
    assert run + [Wait(0)] == [ReadFile(1), MergeIn(1), Mark(1, ["m"]), Wait(0)];
    assert Exec(Exec(start, run), [Wait(0)]) == Exec(start, run);
    assert 1 in three.mem && "m" in three.mem[1].read;
  }
}
