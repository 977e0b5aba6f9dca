/** The bridge worker composed with the queue (bridge lib/commands.js, ops.mjs completeCommand). */
module CommandWorker {
  // Claimed commands are run and reported back over a network that may lose the request or the reply.

  import opened Options
  import opened Commands
  import opened CommandQueue
  import QL = QueueLifecycle

  /** What the network did to one result POST. */
  datatype Net = Delivered | ReplyLost | RequestLost

  /** What a handler did; an unsupported method counts as throwing. */
  datatype Outcome = Returned(result: Value) | Threw(error: Value)

  /** Everything outside the worker that decides one `run`. */
  datatype Step = Step(outcome: Outcome, first: Net, second: Net, netError: Value, now: Millis, later: Millis)

  /** One POST of a result: the node completes the command unless the request was lost. */
  function ReportOn(d: Disk, p: Policy, id: Id, report: Report, now: Millis, net: Net): (Disk, bool) {
    if net.RequestLost? then (d, false)
    else
      var (d', answer) := CompleteOn(d, p, id, report, now);
      (d', net.Delivered? && answer.Ok?)
  }

  /** The reports `run` attempts for one command, and the queue afterwards. */
  function RunOn(d: Disk, p: Policy, id: Id, s: Step): (Disk, seq<Report>) {
    if id == "" then (d, [])
    else
      match s.outcome
      case Returned(v) =>
        var (d1, ok) := ReportOn(d, p, id, Success(v), s.now, s.first);
        if ok then (d1, [Success(v)])
        else (ReportOn(d1, p, id, Failure(s.netError), s.later, s.second).0, [Success(v), Failure(s.netError)])
      case Threw(e) => (ReportOn(d, p, id, Failure(e), s.now, s.first).0, [Failure(e)])
  }

  /** The errors that `run` records for one command: the failure itself, and a last report without an answer. */
  function ErrorsOf(d: Disk, p: Policy, id: Id, s: Step): nat {
    if id == "" then 1
    else
      match s.outcome
      case Returned(v) =>
        var (d1, ok) := ReportOn(d, p, id, Success(v), s.now, s.first);
        if ok then 0 else if ReportOn(d1, p, id, Failure(s.netError), s.later, s.second).1 then 1 else 2
      case Threw(e) => if ReportOn(d, p, id, Failure(e), s.now, s.first).1 then 1 else 2
  }

  function RunAllOn(d: Disk, p: Policy, ids: seq<Id>, steps: seq<Step>): (Disk, seq<seq<Report>>)
    requires |ids| == |steps|
    decreases |ids|
  {
    if ids == [] then (d, [])
    else
      var (d1, reports) := RunOn(d, p, ids[0], steps[0]);
      var (d2, rest) := RunAllOn(d1, p, ids[1..], steps[1..]);
      (d2, [reports] + rest)
  }

  class Worker {
    const queue: Queue
    var executed: nat
    var failed: nat
    var errors: nat

    constructor (queue: Queue)
      ensures this.queue == queue && executed == 0 && failed == 0 && errors == 0
    {
      this.queue := queue;
      executed, failed, errors := 0, 0, 0;
    }

    method Report(id: Id, report: Commands.Report, now: Millis, net: Net) returns (ok: bool)
      modifies queue
      ensures (queue.State(), ok) == ReportOn(old(queue.State()), queue.policy, id, report, now, net)
      ensures ok ==> net.Delivered? && id in queue.State().files && Terminal(queue.State().files[id].status)
    {
      if net.RequestLost? {
        return false;
      }
      var answer := queue.Complete(id, report, now);
      ok := net.Delivered? && answer.Ok?;
    }

    method Run(id: Id, s: Step) returns (reports: seq<Commands.Report>)
      modifies this, queue
      ensures (queue.State(), reports) == RunOn(old(queue.State()), queue.policy, id, s)
      ensures id != "" ==> executed + failed == old(executed + failed) + 1
      ensures executed == old(executed) + if |reports| == 1 && reports[0].Success? then 1 else 0
      ensures id == "" ==> failed == old(failed)
      ensures errors == old(errors) + ErrorsOf(old(queue.State()), queue.policy, id, s)
    {
      reports := [];
      if id == "" {
        errors := errors + 1;
        return;
      }
      match s.outcome
      case Returned(v) =>
        reports := [Success(v)];
        var ok := Report(id, Success(v), s.now, s.first);
        if ok {
          executed := executed + 1;
          return;
        }
        failed := failed + 1;
        errors := errors + 1;
        reports := [Success(v), Failure(s.netError)];
        var landed := Report(id, Failure(s.netError), s.later, s.second);
        if !landed {
          errors := errors + 1;
        }
      case Threw(e) =>
        failed := failed + 1;
        errors := errors + 1;
        reports := [Failure(e)];
        var landed := Report(id, Failure(e), s.now, s.first);
        if !landed {
          errors := errors + 1;
        }
    }

    /** The body of one tick once the claim answered: run every command, one after the other. */
    method RunTick(ids: seq<Id>, steps: seq<Step>) returns (reports: seq<seq<Commands.Report>>)
      requires |ids| == |steps|
      modifies this, queue
      ensures (queue.State(), reports) == RunAllOn(old(queue.State()), queue.policy, ids, steps)
    {
      hide RunOn, ReportOn, ErrorsOf;
      reports := [];
      ghost var whole := RunAllOn(queue.State(), queue.policy, ids, steps);
      assert ids[0..] == ids && steps[0..] == steps && [] + whole.1 == whole.1;
      for i := 0 to |ids|
        invariant var rest := RunAllOn(queue.State(), queue.policy, ids[i..], steps[i..]);
                  whole == (rest.0, reports + rest.1)
      {
        assert ids[i..][1..] == ids[i + 1..] && steps[i..][1..] == steps[i + 1..];
        var got := Run(ids[i], steps[i]);
        ghost var rest := RunAllOn(queue.State(), queue.policy, ids[i + 1..], steps[i + 1..]).1;
        assert reports + ([got] + rest) == reports + [got] + rest;
        reports := reports + [got];
      }
      assert reports + [] == reports;
    }
  }

  // ---------------------------------------------------------------- what the caller gets

  /** Every claimed command that has an id gets one or two report attempts, two only after a lost success. */
  lemma {:induction false} OneOrTwoReports(d: Disk, p: Policy, ids: seq<Id>, steps: seq<Step>, i: nat)
    requires |ids| == |steps| && i < |ids| && ids[i] != ""
    ensures var all := RunAllOn(d, p, ids, steps).1;
            && |all| == |ids| && 1 <= |all[i]| <= 2
            && all[i][0] == (match steps[i].outcome case Returned(v) => Success(v) case Threw(e) => Failure(e))
            && (|all[i]| == 2 ==> steps[i].outcome.Returned? && all[i][1] == Failure(steps[i].netError))
    decreases |ids|
  {
    RunAllLength(d, p, ids, steps);
    if i > 0 {
      OneOrTwoReports(RunOn(d, p, ids[0], steps[0]).0, p, ids[1..], steps[1..], i - 1);
    }
  }

  lemma {:induction false} RunAllLength(d: Disk, p: Policy, ids: seq<Id>, steps: seq<Step>)
    requires |ids| == |steps|
    ensures |RunAllOn(d, p, ids, steps).1| == |ids|
    decreases |ids|
  {
    if ids != [] {
      RunAllLength(RunOn(d, p, ids[0], steps[0]).0, p, ids[1..], steps[1..]);
    }
  }

  /** The queue with other clients running between the two reports of one command. */
  ghost function Interleaved(h: QL.History, p: Policy, id: Id, s: Step, between: seq<QL.Action>): QL.History {
    var first := if s.outcome.Returned? then Success(s.outcome.result) else Failure(s.outcome.error);
    var h1 := if s.first.RequestLost? then h else QL.Apply(h, p, QL.Complete(id, first, s.now));
    var h2 := QL.Exec(h1, p, between);
    var ok := s.first.Delivered? && CompleteOn(h.disk, p, id, first, s.now).1.Ok?;
    if s.outcome.Threw? || ok || s.second.RequestLost? then h2
    else QL.Apply(h2, p, QL.Complete(id, Failure(s.netError), s.later))
  }

  /** With nobody in between, that is what the worker's `run` does. */
  lemma {:induction false} InterleavedIsRun(h: QL.History, p: Policy, id: Id, s: Step)
    requires id != ""
    ensures Interleaved(h, p, id, s, []).disk == RunOn(h.disk, p, id, s).0
  {
  }

  /** The report that lands first on an unfinished command decides what is stored, for good. */
  lemma {:induction false} FirstLandedDecides(h: QL.History, p: Policy, id: Id, s: Step, between: seq<QL.Action>, after: seq<QL.Action>)
    requires QL.Inv(h) && |Active(h.disk)| <= p.maxPending
    requires SafeId(id) && id in h.disk.files && !Terminal(h.disk.files[id].status) && !s.first.RequestLost?
    ensures var end := QL.Exec(Interleaved(h, p, id, s, between), p, after).disk;
            var first := if s.outcome.Returned? then Success(s.outcome.result) else Failure(s.outcome.error);
            && id in end.files
            && Finishes(h.disk.files[id], end.files[id], first, p.maxResultBytes, s.now)
            && (end.files[id].status.Done? <==> s.outcome.Returned?)
  {
    var first := if s.outcome.Returned? then Success(s.outcome.result) else Failure(s.outcome.error);
    var h1 := QL.Apply(h, p, QL.Complete(id, first, s.now));
    QL.StepKeeps(h, p, QL.Complete(id, first, s.now));
    assert h1.disk.files[id] == CompletedCopy(h.disk.files[id], ClipReport(first, p.maxResultBytes), s.now);
    var h3 := Interleaved(h, p, id, s, between);
    hide QL.Apply, QL.Inv, CompletedCopy, ClipReport, CompleteOn, Active;
    assert Terminal(h1.disk.files[id].status) by { CompletedIsTerminal(h.disk.files[id], ClipReport(first, p.maxResultBytes), s.now); }
    QL.RunKeeps(h1, p, between);
    var h2 := QL.Exec(h1, p, between);
    if h3 != h2 {
      QL.StepKeeps(h2, p, QL.Complete(id, Failure(s.netError), s.later));
    }
    QL.RunKeeps(h3, p, after);
    CompletedIsFinished(h.disk.files[id], first, p.maxResultBytes, s.now);
  }

  lemma CompletedIsTerminal(r: Record, report: Report, now: Millis)
    ensures Terminal(CompletedCopy(r, report, now).status)
  {
  }

  /**
   * If the success never reached the node, the follow-up failure report counts, unless another operation
   * between the two (a sweep, or a report after a takeover) finished the command first: then that stays.
   */
  lemma {:induction false} LostSuccessFails(h: QL.History, p: Policy, id: Id, s: Step, between: seq<QL.Action>, after: seq<QL.Action>)
    requires QL.Inv(h) && |Active(h.disk)| <= p.maxPending && SafeId(id) && id in h.disk.files
    requires s.outcome.Returned? && s.first.RequestLost? && !s.second.RequestLost?
    ensures var found := QL.Exec(h, p, between).disk;
            var end := QL.Exec(Interleaved(h, p, id, s, between), p, after).disk;
            && id in found.files && id in end.files
            && if Terminal(found.files[id].status) then end.files[id] == found.files[id]
               else IsFailed(found.files[id], end.files[id], s.netError, s.later)
  {
    var a := QL.Complete(id, Failure(s.netError), s.later);
    var mid := QL.Exec(h, p, between);
    QL.RunKeeps(h, p, between);
    QL.StepKeeps(mid, p, a);
    var h3 := QL.Apply(mid, p, a);
    assert h3.disk.files[id] == if Terminal(mid.disk.files[id].status) then mid.disk.files[id]
                                else CompletedCopy(mid.disk.files[id], Failure(s.netError), s.later);
    hide QL.Apply, QL.Inv, CompleteOn, Active;
    QL.RunKeeps(h3, p, after);
  }
}
