/**
 * Which runs of the claim protocol keep their finished records (capabilities.mjs, `claim` and `complete`).
 */
module TerminalRecords {
  import opened Options
  import opened Commands
  import opened ClaimSteps

  /** Records in `s` that are terminal are still there, unchanged, in `t`. */
  ghost predicate TerminalKept(s: Sys, t: Sys) {
    forall id :: id in s.files && Terminal(s.files[id].status) ==> id in t.files && t.files[id] == s.files[id]
  }

  // ---------------------------------------------------------------- one step

  predicate IsWriting(s: Sys, p: Pid) {
    p in s.claimers && s.claimers[p].phase.Writing?
  }

  predicate IsReporting(s: Sys, req: Request) {
    req in s.completions && s.completions[req].ToWrite?
  }

  predicate Finished(s: Sys, id: Id) {
    id in s.files && Terminal(s.files[id].status)
  }

  /** What a report is about to store. */
  function Stored(s: Sys, req: Request): Record
    requires IsReporting(s, req)
  {
    CompletedCopy(s.completions[req].record, s.completions[req].report, s.clock)
  }

  predicate StoresTheSame(s: Sys, req: Request)
    requires IsReporting(s, req)
  {
    var id := s.completions[req].record.id; id in s.files && s.files[id] == Stored(s, req)
  }

  /** A write that finds its file finished and stores something else. */
  predicate Rewrites(s: Sys, a: Action) {
    match a
    case Write(p, _) => IsWriting(s, p) && Finished(s, s.claimers[p].phase.record.id)
    case CompleteWrite(req) => IsReporting(s, req) && Finished(s, s.completions[req].record.id) && !StoresTheSame(s, req)
    case _ => false
  }

  lemma {:induction false} OnlyWritesChangeFiles(s: Sys, a: Action)
    requires !a.Enqueue? && !a.Write? && !a.CompleteWrite?
    ensures Apply(s, a).files == s.files
  {
  }

  /** Without any hypothesis: a step changes a finished record if and only if it is such a write. */
  lemma {:induction false} StepTerminalIff(s: Sys, a: Action)
    ensures TerminalKept(s, Apply(s, a)) <==> !Rewrites(s, a)
  {
    match a
    case Write(p, bridge) =>
      if IsWriting(s, p) {
        var id := s.claimers[p].phase.record.id;
        assert Apply(s, a).files[id].status.Claimed?;
      }
    case CompleteWrite(req) =>
      if IsReporting(s, req) {
        assert Apply(s, a).files == s.files[s.completions[req].record.id := Stored(s, req)];
      }
    case Enqueue(_, _, _) =>
    case _ => OnlyWritesChangeFiles(s, a);
  }

  // ---------------------------------------------------------------- overtaken writers

  /** The claimers and the reports on whose command a report landed since they read its record. */
  datatype Late = Late(claimers: set<Pid>, requests: set<Request>)

  const NOBODY: Late := Late({}, {})

  /** A report that lands overtakes everybody else who has read the same record and not written yet. */
  function Note(s: Sys, late: Late, a: Action): Late {
    match a
    case Write(p, _) => late.(claimers := late.claimers - {p})
    case CompleteWrite(req) =>
      if !IsReporting(s, req) then late
      else
        var id := s.completions[req].record.id;
        Late(late.claimers + (set p | p in s.claimers && IsWriting(s, p) && s.claimers[p].phase.record.id == id),
             late.requests + (set r | r in s.completions && IsReporting(s, r) && s.completions[r].record.id == id) - {req})
    case _ => late
  }

  /** An overtaken writer writes, other than to store the same record again. */
  predicate LateWrite(s: Sys, late: Late, a: Action) {
    match a
    case Write(p, _) => IsWriting(s, p) && p in late.claimers
    case CompleteWrite(req) => IsReporting(s, req) && req in late.requests && !StoresTheSame(s, req)
    case _ => false
  }

  predicate NoLateWrite(s: Sys, late: Late, run: seq<Action>)
    decreases |run|
  {
    run == [] || (!LateWrite(s, late, run[0]) && NoLateWrite(Apply(s, run[0]), Note(s, late, run[0]), run[1..]))
  }

  // ---------------------------------------------------------------- what the history says about the files

  /** Phases and reports name existing files, and who is about to write has read an unfinished record. */
  ghost predicate Known(s: Sys) {
    && (forall id :: id in s.files ==> s.files[id].id == id)
    && (forall p :: p in s.claimers ==> KnownIds(s, s.claimers[p].phase))
    && (forall p :: p in s.claimers && s.claimers[p].phase.Writing? ==> !Terminal(s.claimers[p].phase.record.status))
    && (forall r :: r in s.completions ==> s.completions[r].record.id in s.files)
    && (forall r :: r in s.completions && s.completions[r].ToWrite? ==> !Terminal(s.completions[r].record.status))
  }

  /** A writer is overtaken exactly if the file it is about to write is finished. */
  ghost predicate Tracks(s: Sys, late: Late) {
    && (forall p :: p in late.claimers ==> IsWriting(s, p))
    && (forall r :: r in late.requests ==> IsReporting(s, r))
    && (forall p :: IsWriting(s, p) ==> (p in late.claimers <==> Finished(s, s.claimers[p].phase.record.id)))
    && (forall r :: IsReporting(s, r) ==> (r in late.requests <==> Finished(s, s.completions[r].record.id)))
  }

  /** One claimer moves on; leases and returned ids do not matter. */
  lemma {:induction false} KnownMove(s: Sys, t: Sys, p: Pid, phase: Phase)
    requires Known(s) && KnownIds(s, phase) && (phase.Writing? ==> !Terminal(phase.record.status))
    requires t.files == s.files && t.completions == s.completions && p in t.claimers && t.claimers[p].phase == phase
    requires forall q :: q in t.claimers && q != p ==> q in s.claimers && t.claimers[q] == s.claimers[q]
    ensures Known(t)
  {
    hide Terminal;
    forall q | q in t.claimers
      ensures KnownIds(t, t.claimers[q].phase)
    {
      assert q != p ==> KnownIds(s, s.claimers[q].phase);
    }
  }

  lemma {:induction false} ScanKnown(s: Sys, p: Pid, record: Record)
    requires Known(s)
    ensures Known(Apply(s, Stat(p, record)))
  {
    var c := ClaimerOf(s, p);
    if c.phase.Scanning? && record in c.phase.todo {
      var t := Apply(s, Stat(p, record));
      assert KnownIds(s, c.phase);
      hide Known;
      if t != s {
        KnownMove(s, t, p, t.claimers[p].phase);
      }
    }
  }

  lemma {:induction false} LockKnown(s: Sys, a: Action)
    requires Known(s) && (a.Remove? || a.Create? || a.Drop?)
    ensures Known(Apply(s, a))
  {
    var ph := ClaimerOf(s, a.p).phase;
    assert KnownIds(s, ph);
    hide Known;
    if ph.Removing? && a.Remove? {
      KnownMove(s, Apply(s, a), a.p, Creating(ph.todo, ph.record));
    } else if ph.Creating? && a.Create? {
      KnownMove(s, Apply(s, a), a.p, if ph.record.id in s.locks then Scanning(ph.todo) else Rereading(ph.todo, ph.record));
    } else if ph.Dropping? && a.Drop? {
      KnownMove(s, Apply(s, a), a.p, Scanning(ph.todo));
    }
  }

  lemma {:induction false} RereadKnown(s: Sys, p: Pid)
    requires Known(s)
    ensures Known(Apply(s, Reread(p)))
  {
    var ph := ClaimerOf(s, p).phase;
    assert KnownIds(s, ph);
    if ph.Rereading? {
      var current := s.files[ph.record.id];
      assert current.id == ph.record.id;
      hide Known;
      KnownMove(s, Apply(s, Reread(p)), p, if Terminal(current.status) then Dropping(ph.todo, current) else Writing(ph.todo, current));
    }
  }

  lemma {:induction false} ListKnown(s: Sys, p: Pid, id: Id)
    requires Known(s)
    ensures Known(Apply(s, ReadOne(p, id))) && Known(Apply(s, EndList(p)))
  {
    var ph := ClaimerOf(s, p).phase;
    assert KnownIds(s, ph);
    assert forall x :: x in s.files ==> s.files[x].id == x;
    hide Known;
    if ph.Listing? && id in ph.left {
      KnownMove(s, Apply(s, ReadOne(p, id)), p, Listing(ph.left - {id}, ph.got + {s.files[id]}));
    }
    if ph.Listing? && ph.left == {} {
      KnownMove(s, Apply(s, EndList(p)), p, Scanning(ph.got));
    }
  }

  lemma {:induction false} CallKnown(s: Sys, p: Pid, limit: nat)
    requires Known(s)
    ensures Known(Apply(s, Begin(p, limit))) && Known(Apply(s, Return(p)))
  {
    hide Known;
    if ClaimerOf(s, p).phase.Idle? && limit != 0 {
      KnownMove(s, Apply(s, Begin(p, limit)), p, Listing(s.files.Keys, {}));
    }
    if Apply(s, Return(p)) != s {
      KnownMove(s, Apply(s, Return(p)), p, Idle);
    }
  }

  /** Files are added and rewritten, never renamed or removed. */
  lemma {:induction false} FilesKnown(s: Sys, t: Sys)
    requires Known(s) && s.files.Keys <= t.files.Keys && (forall id :: id in t.files ==> t.files[id].id == id)
    requires forall p :: p in t.claimers ==> p in s.claimers && t.claimers[p].phase == s.claimers[p].phase
    requires forall r :: r in t.completions ==>
               r in s.completions && t.completions[r].record == s.completions[r].record && (t.completions[r].ToWrite? ==> s.completions[r].ToWrite?)
    ensures Known(t)
  {
    forall p | p in t.claimers
      ensures KnownIds(t, t.claimers[p].phase)
    {
      assert KnownIds(s, s.claimers[p].phase);
    }
  }

  lemma {:induction false} WriteKnown(s: Sys, p: Pid, bridge: string)
    requires Known(s)
    ensures Known(Apply(s, Write(p, bridge)))
  {
    var c := ClaimerOf(s, p);
    if c.phase.Writing? {
      assert KnownIds(s, c.phase);
      var id := c.phase.record.id;
      var t := s.(files := s.files[id := ClaimedCopy(c.phase.record, bridge, s.clock)]);
      hide KnownIds, Terminal, ClaimedCopy;
      FilesKnown(s, t);
      assert KnownIds(t, Scanning(c.phase.todo)) by { ScanningIsKnown(t, c.phase); }
      hide Known;
      KnownMove(t, Apply(s, Write(p, bridge)), p, Scanning(c.phase.todo));
    }
  }

  lemma ScanningIsKnown(s: Sys, phase: Phase)
    requires phase.Writing? && forall p :: p in s.claimers ==> KnownIds(s, s.claimers[p].phase)
    requires exists p :: p in s.claimers && s.claimers[p].phase == phase
    ensures KnownIds(s, Scanning(phase.todo))
  {
  }

  lemma {:induction false} StepKnown(s: Sys, a: Action)
    requires Known(s)
    ensures Known(Apply(s, a))
  {
    hide Known, KnownIds, Apply;
    match a
    case Stat(p, record) => ScanKnown(s, p, record);
    case Begin(p, limit) => CallKnown(s, p, limit);
    case Return(p) => CallKnown(s, p, 0);
    case ReadOne(p, id) => ListKnown(s, p, id);
    case EndList(p) => ListKnown(s, p, "");
    case Reread(p) => RereadKnown(s, p);
    case Write(p, bridge) => WriteKnown(s, p, bridge);
    case Remove(_) => LockKnown(s, a);
    case Create(_) => LockKnown(s, a);
    case Drop(_) => LockKnown(s, a);
    case CompleteRead(_, _, _) => ReadKnown(s, a);
    case _ => FileStepKnown(s, a);
  }

  lemma {:induction false} ReadKnown(s: Sys, a: Action)
    requires Known(s) && a.CompleteRead?
    ensures Known(Apply(s, a))
  {
    forall p | p in s.claimers
      ensures KnownIds(Apply(s, a), s.claimers[p].phase)
    {
      assert KnownIds(s, s.claimers[p].phase);
    }
  }

  lemma {:induction false} FileStepKnown(s: Sys, a: Action)
    requires Known(s) && (a.Wait? || a.Enqueue? || a.CompleteWrite? || a.CompleteRemove?)
    ensures Known(Apply(s, a))
  {
    hide KnownIds;
    FileStepFiles(s, a);
    FileStepReports(s, a);
    hide Apply;
    FilesKnown(s, Apply(s, a));
  }

  lemma FileStepFiles(s: Sys, a: Action)
    requires Known(s) && (a.Wait? || a.Enqueue? || a.CompleteWrite? || a.CompleteRemove?)
    ensures var t := Apply(s, a);
            s.files.Keys <= t.files.Keys && t.claimers == s.claimers && forall id :: id in t.files ==> t.files[id].id == id
  {
    hide KnownIds;
  }

  lemma FileStepReports(s: Sys, a: Action)
    requires a.Wait? || a.Enqueue? || a.CompleteWrite? || a.CompleteRemove?
    ensures var t := Apply(s, a);
            forall r :: r in t.completions ==>
              r in s.completions && t.completions[r].record == s.completions[r].record && (t.completions[r].ToWrite? ==> s.completions[r].ToWrite?)
  {
  }

  // ---------------------------------------------------------------- every step keeps track

  lemma {:induction false} LateIsRewrite(s: Sys, late: Late, a: Action)
    requires Tracks(s, late)
    ensures LateWrite(s, late, a) <==> Rewrites(s, a)
  {
  }

  /** A step that writes nothing: who becomes a writer has just read an unfinished record. */
  lemma {:induction false} QuietTracks(s: Sys, late: Late, a: Action)
    requires Known(s) && Tracks(s, late) && !a.Enqueue? && !a.Write? && !a.CompleteWrite?
    ensures Tracks(Apply(s, a), late)
  {
    hide Apply, Known, Tracks, WritersKept;
    OnlyWritesChangeFiles(s, a);
    WritersStay(s, a);
    SameFilesTrack(s, Apply(s, a), late);
  }

  lemma {:induction false} SameFilesTrack(s: Sys, t: Sys, late: Late)
    requires Tracks(s, late) && WritersKept(s, t) && t.files == s.files
    ensures Tracks(t, late)
  {
    forall p | IsWriting(t, p)
      ensures p in late.claimers <==> Finished(t, t.claimers[p].phase.record.id)
    {
      assert p in late.claimers ==> IsWriting(s, p);
    }
    forall r | IsReporting(t, r)
      ensures r in late.requests <==> Finished(t, t.completions[r].record.id)
    {
      assert r in late.requests ==> IsReporting(s, r);
    }
  }

  /** The writers of `s` are writers of `t`, and the new ones have just read an unfinished record. */
  ghost predicate WritersKept(s: Sys, t: Sys) {
    && (forall p :: IsWriting(s, p) ==> IsWriting(t, p) && t.claimers[p].phase == s.claimers[p].phase)
    && (forall p :: IsWriting(t, p) && !IsWriting(s, p) ==> !Finished(s, t.claimers[p].phase.record.id))
    && (forall r :: IsReporting(s, r) ==> IsReporting(t, r) && t.completions[r] == s.completions[r])
    && (forall r :: IsReporting(t, r) && !IsReporting(s, r) ==> !Finished(s, t.completions[r].record.id))
  }

  lemma {:induction false} MoveKeepsWriters(s: Sys, t: Sys, p: Pid)
    requires !IsWriting(s, p) && t.completions == s.completions
    requires s.claimers.Keys <= t.claimers.Keys && forall q :: q in t.claimers && q != p ==> q in s.claimers && t.claimers[q] == s.claimers[q]
    requires IsWriting(t, p) ==> !Finished(s, t.claimers[p].phase.record.id)
    ensures WritersKept(s, t)
  {
  }

  lemma {:induction false} ReportsKeepWriters(s: Sys, a: Action)
    requires Known(s) && (a.Wait? || a.CompleteRead? || a.CompleteRemove?)
    ensures WritersKept(s, Apply(s, a))
  {
    hide KnownIds;
    match a
    case Wait(_) =>
    case CompleteRead(_, id, _) =>
      if id in s.files && !Terminal(s.files[id].status) { ReadIsUnfinished(s, id); }
    case CompleteRemove(_) =>
  }

  lemma ReadIsUnfinished(s: Sys, id: Id)
    requires Known(s) && id in s.files && !Terminal(s.files[id].status)
    ensures s.files[id].id == id && !Finished(s, id)
  {
  }

  lemma {:induction false} RereadKeepsWriters(s: Sys, p: Pid)
    requires Known(s)
    ensures WritersKept(s, Apply(s, Reread(p)))
  {
    var ph := ClaimerOf(s, p).phase;
    assert KnownIds(s, ph);
    if ph.Rereading? {
      assert s.files[ph.record.id].id == ph.record.id;
      MoveKeepsWriters(s, Apply(s, Reread(p)), p);
    }
  }

  lemma {:induction false} ClaimsKeepWriters(s: Sys, a: Action)
    requires a.Begin? || a.ReadOne? || a.EndList? || a.Stat? || a.Remove? || a.Create? || a.Drop? || a.Return?
    ensures WritersKept(s, Apply(s, a))
  {
    if !IsWriting(s, a.p) {
      ClaimsMove(s, a);
      hide Apply;
      MoveKeepsWriters(s, Apply(s, a), a.p);
    }
  }

  /** `t` differs from `s` in what does not matter here, and in one claimer that does not write. */
  ghost predicate Moves(s: Sys, t: Sys, p: Pid) {
    && t.completions == s.completions && s.claimers.Keys <= t.claimers.Keys
    && (forall q :: q in t.claimers && q != p ==> q in s.claimers && t.claimers[q] == s.claimers[q])
    && (!IsWriting(s, p) ==> !IsWriting(t, p))
  }

  lemma {:induction false} StatMoves(s: Sys, p: Pid, record: Record)
    ensures Moves(s, Apply(s, Stat(p, record)), p)
  {
    hide StaleLease;
  }

  lemma {:induction false} ListMoves(s: Sys, a: Action)
    requires a.Begin? || a.ReadOne? || a.EndList? || a.Return?
    ensures Moves(s, Apply(s, a), a.p)
  {
  }

  lemma {:induction false} LockMoves(s: Sys, a: Action)
    requires a.Remove? || a.Create? || a.Drop?
    ensures Moves(s, Apply(s, a), a.p)
  {
  }

  lemma {:induction false} ClaimsMove(s: Sys, a: Action)
    requires a.Begin? || a.ReadOne? || a.EndList? || a.Stat? || a.Remove? || a.Create? || a.Drop? || a.Return?
    ensures Moves(s, Apply(s, a), a.p)
  {
    hide Apply, Moves;
    match a
    case Stat(p, record) => StatMoves(s, p, record);
    case Remove(_) => LockMoves(s, a);
    case Create(_) => LockMoves(s, a);
    case Drop(_) => LockMoves(s, a);
    case _ => ListMoves(s, a);
  }

  /** Who is about to write stays so until it writes. */
  lemma {:induction false} WritersStay(s: Sys, a: Action)
    requires Known(s) && !a.Enqueue? && !a.Write? && !a.CompleteWrite?
    ensures WritersKept(s, Apply(s, a))
  {
    hide Known, WritersKept, Apply;
    match a
    case Reread(p) => RereadKeepsWriters(s, p);
    case Wait(_) => ReportsKeepWriters(s, a);
    case CompleteRead(_, _, _) => ReportsKeepWriters(s, a);
    case CompleteRemove(_) => ReportsKeepWriters(s, a);
    case _ => ClaimsKeepWriters(s, a);
  }

  lemma {:induction false} EnqueueTracks(s: Sys, late: Late, a: Action)
    requires Known(s) && Tracks(s, late) && a.Enqueue?
    ensures Tracks(Apply(s, a), late)
  {
    var t := Apply(s, a);
    forall p | IsWriting(t, p)
      ensures Finished(t, t.claimers[p].phase.record.id) <==> Finished(s, s.claimers[p].phase.record.id)
    {
      assert KnownIds(s, s.claimers[p].phase);
    }
  }

  lemma {:induction false} ClaimWriteTracks(s: Sys, late: Late, p: Pid, bridge: string)
    requires Known(s) && Tracks(s, late) && IsWriting(s, p) && !Finished(s, s.claimers[p].phase.record.id)
    ensures Tracks(Apply(s, Write(p, bridge)), late.(claimers := late.claimers - {p}))
  {
    var t := Apply(s, Write(p, bridge));
    assert forall id :: Finished(t, id) <==> Finished(s, id);
    assert forall q :: IsWriting(t, q) <==> IsWriting(s, q) && q != p;
  }

  lemma {:induction false} ReportWriteTracks(s: Sys, late: Late, req: Request)
    requires Known(s) && Tracks(s, late) && IsReporting(s, req)
    ensures Tracks(Apply(s, CompleteWrite(req)), Note(s, late, CompleteWrite(req)))
  {
    var t := Apply(s, CompleteWrite(req));
    var id := s.completions[req].record.id;
    assert Terminal(Stored(s, req).status);
    assert t.files == s.files[id := Stored(s, req)];
    assert forall x :: Finished(t, x) <==> Finished(s, x) || x == id;
    assert forall q :: IsWriting(t, q) <==> IsWriting(s, q);
    assert forall r :: IsReporting(t, r) <==> IsReporting(s, r) && r != req;
  }

  lemma {:induction false} StepTracks(s: Sys, late: Late, a: Action)
    requires Known(s) && Tracks(s, late) && !LateWrite(s, late, a)
    ensures Tracks(Apply(s, a), Note(s, late, a))
  {
    match a
    case Write(p, bridge) =>
      if IsWriting(s, p) {
        ClaimWriteTracks(s, late, p, bridge);
      } else {
        assert late.claimers - {p} == late.claimers;
      }
    case CompleteWrite(req) =>
      if IsReporting(s, req) { ReportWriteTracks(s, late, req); }
    case Enqueue(_, _, _) => EnqueueTracks(s, late, a);
    case _ => QuietTracks(s, late, a);
  }

  // ---------------------------------------------------------------- every run

  predicate EachStepKeeps(s: Sys, run: seq<Action>)
    decreases |run|
  {
    run == [] || (!Rewrites(s, run[0]) && EachStepKeeps(Apply(s, run[0]), run[1..]))
  }

  lemma {:induction false} EachStepIff(s: Sys, late: Late, run: seq<Action>)
    requires Known(s) && Tracks(s, late)
    ensures EachStepKeeps(s, run) <==> NoLateWrite(s, late, run)
    decreases |run|
  {
    hide Known, Tracks, Apply, Note, LateWrite, Rewrites;
    if run != [] {
      LateIsRewrite(s, late, run[0]);
      if !LateWrite(s, late, run[0]) {
        StepKnown(s, run[0]);
        StepTracks(s, late, run[0]);
        EachStepIff(Apply(s, run[0]), Note(s, late, run[0]), run[1..]);
      }
    }
  }

  /** Finished records are the same at any two points of a run. */
  ghost predicate KeptThroughout(s: Sys, run: seq<Action>) {
    forall i, j :: 0 <= i <= j <= |run| ==> TerminalKept(Exec(s, run[..i]), Exec(s, run[..j]))
  }

  lemma {:induction false} StepsKeep(s: Sys, run: seq<Action>)
    requires EachStepKeeps(s, run)
    ensures TerminalKept(s, Exec(s, run))
    decreases |run|
  {
    hide Apply, Rewrites;
    if run != [] {
      StepTerminalIff(s, run[0]);
      StepsKeep(Apply(s, run[0]), run[1..]);
    }
  }

  lemma {:induction false} PartKeeps(s: Sys, first: seq<Action>, rest: seq<Action>)
    requires EachStepKeeps(s, first + rest)
    ensures EachStepKeeps(s, first) && EachStepKeeps(Exec(s, first), rest)
    decreases |first|
  {
    hide Apply, Rewrites;
    if first == [] {
      assert first + rest == rest;
    } else {
      assert (first + rest)[0] == first[0] && (first + rest)[1..] == first[1..] + rest;
      PartKeeps(Apply(s, first[0]), first[1..], rest);
    }
  }

  lemma {:induction false} KeptFromStart(s: Sys, run: seq<Action>, i: nat, j: nat)
    requires EachStepKeeps(s, run) && i <= j <= |run|
    ensures TerminalKept(Exec(s, run[..i]), Exec(s, run[..j]))
  {
    hide EachStepKeeps, Exec, TerminalKept;
    assert run[..j] + run[j..] == run && run[..i] + run[i..j] == run[..j];
    PartKeeps(s, run[..j], run[j..]);
    PartKeeps(s, run[..i], run[i..j]);
    ExecAppend(s, run[..i], run[i..j]);
    StepsKeep(Exec(s, run[..i]), run[i..j]);
  }

  lemma {:induction false} KeptSteps(s: Sys, run: seq<Action>)
    requires KeptThroughout(s, run)
    ensures EachStepKeeps(s, run)
    decreases |run|
  {
    hide Apply, Rewrites, TerminalKept;
    if run != [] {
      var next := Apply(s, run[0]);
      FirstStep(s, run);
      StepTerminalIff(s, run[0]);
      forall i, j | 0 <= i <= j <= |run[1..]|
        ensures TerminalKept(Exec(next, run[1..][..i]), Exec(next, run[1..][..j]))
      {
        LaterStep(s, run, i);
        LaterStep(s, run, j);
        assert TerminalKept(Exec(s, run[..i + 1]), Exec(s, run[..j + 1]));
      }
      KeptSteps(next, run[1..]);
    }
  }

  lemma {:induction false} FirstStep(s: Sys, run: seq<Action>)
    requires run != [] && KeptThroughout(s, run)
    ensures TerminalKept(s, Apply(s, run[0]))
  {
    hide Apply, TerminalKept;
    LaterStep(s, run, 0);
    assert run[..0] == [] && run[1..][..0] == [];
    assert Exec(s, run[..0]) == s && Exec(Apply(s, run[0]), run[1..][..0]) == Apply(s, run[0]);
    assert TerminalKept(Exec(s, run[..0]), Exec(s, run[..1]));
  }

  lemma LaterStep(s: Sys, run: seq<Action>, i: nat)
    requires i < |run|
    ensures Exec(s, run[..i + 1]) == Exec(Apply(s, run[0]), run[1..][..i])
  {
    hide Apply;
    assert run[..i + 1][1..] == run[1..][..i];
  }

  /**
   * Exactly which runs keep their finished records, with no hypothesis at all: those in which nobody
   * writes, other than the same record again, after a report landed on its command since it read it.
   */
  lemma {:induction false} TerminalForeverIff(staleMs: nat, run: seq<Action>)
    ensures KeptThroughout(Initial(staleMs), run) <==> NoLateWrite(Initial(staleMs), NOBODY, run)
  {
    var s := Initial(staleMs);
    assert Known(s) && Tracks(s, NOBODY);
    hide Known, Tracks, Initial, KeptThroughout, EachStepKeeps, NoLateWrite;
    EachStepIff(s, NOBODY, run);
    if EachStepKeeps(s, run) {
      KeptIsThroughout(s, run);
    }
    if KeptThroughout(s, run) {
      KeptSteps(s, run);
    }
  }

  lemma {:induction false} KeptIsThroughout(s: Sys, run: seq<Action>)
    requires EachStepKeeps(s, run)
    ensures KeptThroughout(s, run)
  {
    hide EachStepKeeps, Exec, TerminalKept;
    forall i, j | 0 <= i <= j <= |run|
      ensures TerminalKept(Exec(s, run[..i]), Exec(s, run[..j]))
    {
      KeptFromStart(s, run, i, j);
    }
  }

  // ---------------------------------------------------------------- a discipline that suffices

  /** One report at a time on each command. */
  ghost predicate OneReportEach(s: Sys, run: seq<Action>)
    decreases |run|
  {
    run == [] ||
    (&& (run[0].CompleteRead? ==> forall r :: r in s.completions ==> s.completions[r].record.id != run[0].id)
     && OneReportEach(Apply(s, run[0]), run[1..]))
  }

  /** Reports on different commands, of which those that have still to write find theirs unfinished. */
  ghost predicate Apart(s: Sys) {
    && (forall r, q :: r in s.completions && q in s.completions && r != q ==>
          s.completions[r].record.id != s.completions[q].record.id)
    && (forall r :: IsReporting(s, r) ==> !Finished(s, s.completions[r].record.id))
  }

  lemma {:induction false} StepApart(s: Sys, a: Action)
    requires Inv(s) && Apart(s)
    requires a.CompleteRead? ==> forall r :: r in s.completions ==> s.completions[r].record.id != a.id
    ensures Apart(Apply(s, a))
  {
    hide Apply, Apart, Inv;
    match a
    case Write(p, bridge) => ClaimWriteApart(s, p, bridge);
    case CompleteWrite(req) => ReportWriteApart(s, req);
    case Enqueue(_, _, _) => EnqueueApart(s, a);
    case CompleteRead(_, _, _) => ReportApart(s, a);
    case CompleteRemove(_) => ReportApart(s, a);
    case _ => ClaimStepApart(s, a);
  }

  lemma {:induction false} EnqueueApart(s: Sys, a: Action)
    requires Inv(s) && Apart(s) && a.Enqueue?
    ensures Apart(Apply(s, a))
  {
    hide FilesOk, ClaimersOk, HandoutsOk;
    assert forall r :: r in s.completions ==> CompletionOk(s, s.completions[r]);
  }

  lemma {:induction false} ReportApart(s: Sys, a: Action)
    requires Inv(s) && Apart(s) && (a.CompleteRead? || a.CompleteRemove?)
    requires a.CompleteRead? ==> forall r :: r in s.completions ==> s.completions[r].record.id != a.id
    ensures Apart(Apply(s, a))
  {
    hide ClaimersOk, HandoutsOk, CompletionsOk;
    assert forall id :: id in s.files ==> s.files[id].id == id;
  }

  lemma {:induction false} ClaimWriteApart(s: Sys, p: Pid, bridge: string)
    requires Inv(s) && Apart(s)
    ensures Apart(Apply(s, Write(p, bridge)))
  {
    hide FilesOk, HandoutsOk, CompletionsOk;
    assert p in s.claimers ==> ClaimerOk(s, p, s.claimers[p]);
    assert forall id :: Finished(Apply(s, Write(p, bridge)), id) ==> Finished(s, id);
  }

  lemma {:induction false} ReportWriteApart(s: Sys, req: Request)
    requires Apart(s)
    ensures Apart(Apply(s, CompleteWrite(req)))
  {
  }

  lemma {:induction false} ClaimStepApart(s: Sys, a: Action)
    requires Apart(s) && !a.Enqueue? && !a.Write? && !a.CompleteRead? && !a.CompleteWrite? && !a.CompleteRemove?
    ensures Apart(Apply(s, a))
  {
    OnlyWritesChangeFiles(s, a);
    OnlyReportsReport(s, a);
  }

  lemma OnlyReportsReport(s: Sys, a: Action)
    requires !a.CompleteRead? && !a.CompleteWrite? && !a.CompleteRemove?
    ensures Apply(s, a).completions == s.completions
  {
  }

  lemma {:induction false} NothingIsRewritten(s: Sys, a: Action)
    requires Inv(s) && Apart(s)
    ensures !Rewrites(s, a)
  {
    if a.Write? && IsWriting(s, a.p) {
      assert ClaimerOk(s, a.p, s.claimers[a.p]);
    }
  }

  lemma {:induction false} DisciplineKeeps(s: Sys, run: seq<Action>)
    requires Inv(s) && Apart(s) && Disciplined(s, run) && OneReportEach(s, run)
    ensures EachStepKeeps(s, run)
    decreases |run|
  {
    hide Inv, Apart, Apply, Rewrites, NoStaleLease, ClaimerCompletes;
    if run != [] {
      NothingIsRewritten(s, run[0]);
      StepKeeps(s, run[0]);
      StepApart(s, run[0]);
      DisciplineKeeps(Apply(s, run[0]), run[1..]);
    }
  }

  /**
   * Without a stale lease, with reports only after the claim returned and one at a time, no writer is
   * ever overtaken: a record that became done or failed is the same ever after.
   */
  lemma {:induction false} TerminalForever(staleMs: nat, run: seq<Action>)
    requires Disciplined(Initial(staleMs), run) && OneReportEach(Initial(staleMs), run)
    ensures NoLateWrite(Initial(staleMs), NOBODY, run) && KeptThroughout(Initial(staleMs), run)
  {
    var s := Initial(staleMs);
    assert Inv(s) && Apart(s) && Known(s) && Tracks(s, NOBODY);
    hide Inv, Apart, Known, Tracks, Initial, Disciplined, OneReportEach, EachStepKeeps, KeptThroughout, NoLateWrite;
    DisciplineKeeps(s, run);
    EachStepIff(s, NOBODY, run);
    KeptIsThroughout(s, run);
  }
}
