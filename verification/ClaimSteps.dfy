/**
 * The claim protocol at the grain of single file-system calls (capabilities.mjs, `claim` and `complete`).
 * Any number of processes interleave list, stat, remove, exclusive create, re-read and rename;
 * completions of commands run beside them, outside the per-process lock.
 */
module ClaimSteps {
  import opened Options
  import opened Commands

  type Pid = nat
  type Request = nat

  /** A claim file: who created it and when. Its existence is the lock, its mtime the lease. */
  datatype Lease = Lease(owner: Pid, mtime: Millis)

  /** Where one `claim` call stands. `todo` holds the listed records it has not looked at yet. */
  datatype Phase =
    | Idle
    | Listing(left: set<Id>, got: set<Record>)
    | Scanning(todo: set<Record>)
    | Removing(todo: set<Record>, record: Record)
    | Creating(todo: set<Record>, record: Record)
    | Rereading(todo: set<Record>, record: Record)
    | Writing(todo: set<Record>, record: Record)
    | Dropping(todo: set<Record>, record: Record)

  datatype Claimer = Claimer(phase: Phase, now: Millis, limit: nat, claimed: seq<Id>)

  /** One `complete` call after its read: about to write the terminal record, or to remove the lease. */
  datatype Completion = ToWrite(record: Record, report: Report) | ToRemove(record: Record)

  datatype Sys = Sys(
    clock: Millis,
    staleMs: nat,
    files: map<Id, Record>,
    locks: map<Id, Lease>,
    claimers: map<Pid, Claimer>,
    completions: map<Request, Completion>,
    handouts: seq<(Pid, Id)>,   // history: one entry per record pushed to a claim's result
    returned: set<Id>)          // history: ids whose claim call has returned to its caller

  datatype Action =
    | Wait(ms: nat)
    | Enqueue(id: Id, capability: string, params: string)
    | Begin(p: Pid, limit: nat)
    | ReadOne(p: Pid, id: Id)
    | EndList(p: Pid)
    | Stat(p: Pid, record: Record)
    | Remove(p: Pid)
    | Create(p: Pid)
    | Reread(p: Pid)
    | Write(p: Pid, bridge: string)
    | Drop(p: Pid)
    | Return(p: Pid)
    | CompleteRead(req: Request, id: Id, report: Report)
    | CompleteWrite(req: Request)
    | CompleteRemove(req: Request)

  function Initial(staleMs: nat): Sys {
    Sys(0, staleMs, map[], map[], map[], map[], [], {})
  }

  function ClaimerOf(s: Sys, p: Pid): Claimer {
    if p in s.claimers then s.claimers[p] else Claimer(Idle, 0, 0, [])
  }

  function Move(s: Sys, p: Pid, phase: Phase): Sys {
    s.(claimers := s.claimers[p := ClaimerOf(s, p).(phase := phase)])
  }

  /** One file-system call of one process. An action that is not enabled changes nothing. */
  function Apply(s: Sys, a: Action): Sys {
    match a
    case Wait(ms) => s.(clock := s.clock + ms)
    case Enqueue(id, capability, params) =>
      if id in s.files then s
      else s.(files := s.files[id := NewRecord(id, capability, params, s.clock)])
    case Begin(p, limit) =>
      if !ClaimerOf(s, p).phase.Idle? || limit == 0 then s
      else s.(claimers := s.claimers[p := Claimer(Listing(s.files.Keys, {}), s.clock, limit, [])])
    case ReadOne(p, id) =>
      var ph := ClaimerOf(s, p).phase;
      if !ph.Listing? || id !in ph.left || id !in s.files then s
      else Move(s, p, Listing(ph.left - {id}, ph.got + {s.files[id]}))
    case EndList(p) =>
      var ph := ClaimerOf(s, p).phase;
      if !ph.Listing? || ph.left != {} then s else Move(s, p, Scanning(ph.got))
    case Stat(p, record) => ApplyStat(s, p, record)
    case Remove(p) =>
      var ph := ClaimerOf(s, p).phase;
      if !ph.Removing? then s
      else Move(s.(locks := s.locks - {ph.record.id}), p, Creating(ph.todo, ph.record))
    case Create(p) =>
      var ph := ClaimerOf(s, p).phase;
      if !ph.Creating? then s
      else if ph.record.id in s.locks then Move(s, p, Scanning(ph.todo))
      else Move(s.(locks := s.locks[ph.record.id := Lease(p, s.clock)]), p, Rereading(ph.todo, ph.record))
    case Reread(p) =>
      var ph := ClaimerOf(s, p).phase;
      if !ph.Rereading? then s
      else
        var current := if ph.record.id in s.files then s.files[ph.record.id] else ph.record;
        Move(s, p, if Terminal(current.status) then Dropping(ph.todo, current) else Writing(ph.todo, current))
    case Write(p, bridge) =>
      var ph := ClaimerOf(s, p).phase;
      if !ph.Writing? then s
      else
        var c := ClaimerOf(s, p);
        var id := ph.record.id;
        s.(files := s.files[id := ClaimedCopy(ph.record, bridge, s.clock)],
           claimers := s.claimers[p := c.(phase := Scanning(ph.todo), claimed := c.claimed + [id])],
           handouts := s.handouts + [(p, id)])
    case Drop(p) =>
      var ph := ClaimerOf(s, p).phase;
      if !ph.Dropping? then s
      else Move(s.(locks := s.locks - {ph.record.id}), p, Scanning(ph.todo))
    case Return(p) =>
      var c := ClaimerOf(s, p);
      if !c.phase.Scanning? || (|c.claimed| < c.limit && c.phase.todo != {}) then s
      else Move(s.(returned := s.returned + (set id | id in c.claimed)), p, Idle)
    case CompleteRead(req, id, report) =>
      if req in s.completions || id !in s.files || Terminal(s.files[id].status) then s
      else s.(completions := s.completions[req := ToWrite(s.files[id], report)])
    case CompleteWrite(req) =>
      if req !in s.completions || !s.completions[req].ToWrite? then s
      else
        var c := s.completions[req];
        s.(files := s.files[c.record.id := CompletedCopy(c.record, c.report, s.clock)],
           completions := s.completions[req := ToRemove(c.record)])
    case CompleteRemove(req) =>
      if req !in s.completions || !s.completions[req].ToRemove? then s
      else s.(locks := s.locks - {s.completions[req].record.id}, completions := s.completions - {req})
  }

  /** The stat of the claim file and the three decisions taken on its answer. */
  function ApplyStat(s: Sys, p: Pid, record: Record): Sys {
    var c := ClaimerOf(s, p);
    if !c.phase.Scanning? || record !in c.phase.todo || |c.claimed| >= c.limit then s
    else
      var todo := c.phase.todo - {record};
      var held := record.id in s.locks;
      var stale := held && StaleLease(c.now, s.locks[record.id].mtime, s.staleMs);
      if !record.status.Pending? && !record.status.Claimed? then Move(s, p, Scanning(todo))
      else if record.status.Claimed? && held && !stale then Move(s, p, Scanning(todo))
      else if held && stale then Move(s, p, Removing(todo, record))
      else Move(s, p, Creating(todo, record))
  }

  function Exec(s: Sys, run: seq<Action>): Sys
    decreases |run|
  {
    if run == [] then s else Exec(Apply(s, run[0]), run[1..])
  }

  lemma {:induction false} ExecAppend(s: Sys, first: seq<Action>, rest: seq<Action>)
    ensures Exec(s, first + rest) == Exec(Exec(s, first), rest)
    decreases |first|
  {
    if first == [] {
      assert first + rest == rest;
    } else {
      assert (first + rest)[0] == first[0] && (first + rest)[1..] == first[1..] + rest;
      ExecAppend(Apply(s, first[0]), first[1..], rest);
    }
  }

  // ---------------------------------------------------------------- run hypotheses

  /** No lease has reached claimStaleSeconds. */
  ghost predicate NoStaleLease(s: Sys) {
    forall id :: id in s.locks ==> !StaleLease(s.clock, s.locks[id].mtime, s.staleMs)
  }

  /** A command is completed only after the claim that handed it out has returned. */
  predicate ClaimerCompletes(s: Sys, a: Action) {
    a.CompleteRead? ==> a.id in s.returned
  }

  ghost predicate Disciplined(s: Sys, run: seq<Action>)
    decreases |run|
  {
    NoStaleLease(s) &&
    (run != [] ==> ClaimerCompletes(s, run[0]) && Disciplined(Apply(s, run[0]), run[1..]))
  }

  // ---------------------------------------------------------------- invariant

  predicate Holds(ph: Phase, id: Id) {
    (ph.Rereading? || ph.Writing? || ph.Dropping?) && ph.record.id == id
  }

  /** Ids a phase may still touch; all of them name existing files. */
  ghost predicate KnownIds(s: Sys, ph: Phase) {
    match ph
    case Idle => true
    case Listing(left, got) => left <= s.files.Keys && forall r :: r in got ==> r.id in s.files
    case Scanning(todo) => forall r :: r in todo ==> r.id in s.files
    case _ => ph.record.id in s.files && forall r :: r in ph.todo ==> r.id in s.files
  }

  ghost predicate FilesOk(s: Sys) {
    forall id :: id in s.files ==>
      && s.files[id].id == id
      && !s.files[id].status.Expired?
      && s.files[id].attempts == (if s.files[id].status.Pending? then 0 else 1)
      && (s.files[id].status.Claimed? ==> id in s.locks)
  }

  /** A claimer past its create owns the claim file of a pending command, or the command is finished. */
  ghost predicate ClaimerOk(s: Sys, p: Pid, c: Claimer) {
    && c.now <= s.clock
    && KnownIds(s, c.phase)
    && !c.phase.Removing?
    && (c.phase.Rereading? || c.phase.Writing? || c.phase.Dropping? ==> Settled(s, p, c.phase.record.id))
    && (c.phase.Writing? ==> s.files[c.phase.record.id] == c.phase.record && !Terminal(c.phase.record.status))
    && (c.phase.Dropping? ==> Terminal(s.files[c.phase.record.id].status))
    && forall id :: id in c.claimed ==> id in HandedIds(s.handouts)
  }

  predicate Settled(s: Sys, p: Pid, id: Id) {
    id in s.files &&
    (Terminal(s.files[id].status) || (s.files[id].status.Pending? && id in s.locks && s.locks[id].owner == p))
  }

  ghost predicate ClaimersOk(s: Sys) {
    forall p :: p in s.claimers ==> ClaimerOk(s, p, s.claimers[p])
  }

  /** Ids of the commands handed out so far. */
  ghost function HandedIds(handouts: seq<(Pid, Id)>): set<Id> {
    set i | 0 <= i < |handouts| :: handouts[i].1
  }

  ghost predicate HandoutsOk(s: Sys) {
    && (forall i, j :: 0 <= i < j < |s.handouts| ==> s.handouts[i].1 != s.handouts[j].1)
    && HandedIds(s.handouts) <= s.files.Keys
    && (forall id :: id in s.files ==> (id in HandedIds(s.handouts) <==> !s.files[id].status.Pending?))
    && s.returned <= HandedIds(s.handouts)
  }

  /** A report is on a command that was handed out once; there may be several. */
  ghost predicate CompletionOk(s: Sys, c: Completion) {
    && c.record.id in s.files && !s.files[c.record.id].status.Pending?
    && (c.ToWrite? ==> c.record.status.Claimed? && c.record.attempts == 1)
    && (c.ToRemove? ==> Terminal(s.files[c.record.id].status))
  }

  ghost predicate CompletionsOk(s: Sys) {
    forall r :: r in s.completions ==> CompletionOk(s, s.completions[r])
  }

  ghost predicate Inv(s: Sys) {
    FilesOk(s) && ClaimersOk(s) && HandoutsOk(s) && CompletionsOk(s)
  }

  // ---------------------------------------------------------------- every step keeps the invariant

  /** What one claimer relies on: existing ids, its handed-out ids, and the command it holds unless that is finished. */
  lemma {:induction false} ClaimerUnaffected(s: Sys, t: Sys, q: Pid, c: Claimer)
    requires ClaimerOk(s, q, c)
    requires s.clock <= t.clock && s.files.Keys <= t.files.Keys && HandedIds(s.handouts) <= HandedIds(t.handouts)
    requires forall id :: Holds(c.phase, id) && id in s.files ==>
               if Terminal(s.files[id].status) then Terminal(t.files[id].status)
               else t.files[id] == s.files[id] && (id in s.locks ==> id in t.locks && t.locks[id] == s.locks[id])
    ensures ClaimerOk(t, q, c)
  {
    if c.phase.Rereading? || c.phase.Writing? || c.phase.Dropping? {
      assert Holds(c.phase, c.phase.record.id);
    }
  }

  lemma {:induction false} WaitKeeps(s: Sys, ms: nat)
    requires Inv(s)
    ensures Inv(Apply(s, Wait(ms)))
  {
  }

  /** Moving one claimer between phases that hold no claim file and know only existing ids. */
  lemma {:induction false} MoveKeeps(s: Sys, p: Pid, phase: Phase)
    requires Inv(s) && KnownIds(s, phase)
    requires phase.Idle? || phase.Listing? || phase.Scanning? || phase.Creating?
    ensures Inv(Move(s, p, phase))
  {
    var s' := Move(s, p, phase);
    assert ClaimerOk(s, p, ClaimerOf(s, p)) || p !in s.claimers;
    forall q | q in s'.claimers
      ensures ClaimerOk(s', q, s'.claimers[q])
    {
      if q != p {
        ClaimerUnaffected(s, s', q, s.claimers[q]);
      }
    }
    forall r | r in s.completions
      ensures CompletionOk(s', s.completions[r])
    {
      assert CompletionOk(s, s.completions[r]);
    }
  }

  lemma {:induction false} BeginKeeps(s: Sys, p: Pid, limit: nat)
    requires Inv(s)
    ensures Inv(Apply(s, Begin(p, limit)))
  {
    if ClaimerOf(s, p).phase.Idle? && limit > 0 {
      var s' := Apply(s, Begin(p, limit));
      forall q | q in s'.claimers
        ensures ClaimerOk(s', q, s'.claimers[q])
      {
        if q != p {
          ClaimerUnaffected(s, s', q, s.claimers[q]);
        }
      }
      forall r | r in s.completions
        ensures CompletionOk(s', s.completions[r])
      {
        assert CompletionOk(s, s.completions[r]);
      }
    }
  }

  lemma {:induction false} ReadOneKeeps(s: Sys, p: Pid, id: Id)
    requires Inv(s)
    ensures Inv(Apply(s, ReadOne(p, id)))
  {
    var ph := ClaimerOf(s, p).phase;
    if ph.Listing? && id in ph.left && id in s.files {
      MoveKeeps(s, p, Listing(ph.left - {id}, ph.got + {s.files[id]}));
    }
  }

  lemma {:induction false} EndListKeeps(s: Sys, p: Pid)
    requires Inv(s)
    ensures Inv(Apply(s, EndList(p)))
  {
    var ph := ClaimerOf(s, p).phase;
    if ph.Listing? {
      MoveKeeps(s, p, Scanning(ph.got));
    }
  }

  lemma {:induction false} ReturnKeeps(s: Sys, p: Pid)
    requires Inv(s)
    ensures Inv(Apply(s, Return(p)))
  {
    var c := ClaimerOf(s, p);
    if c.phase.Scanning? {
      var t := s.(returned := s.returned + set id | id in c.claimed);
      assert ClaimersOk(t) by {
        forall q | q in s.claimers
          ensures ClaimerOk(t, q, s.claimers[q])
        {
          ClaimerUnaffected(s, t, q, s.claimers[q]);
        }
      }
      assert HandoutsOk(t) by {
        assert p in s.claimers && ClaimerOk(s, p, c);
      }
      assert CompletionsOk(t);
      MoveKeeps(t, p, Idle);
    }
  }

  lemma {:induction false} EnqueueKeeps(s: Sys, id: Id, capability: string, params: string)
    requires Inv(s)
    ensures Inv(Apply(s, Enqueue(id, capability, params)))
  {
    var s' := Apply(s, Enqueue(id, capability, params));
    forall q | q in s.claimers
      ensures ClaimerOk(s', q, s.claimers[q])
    {
      ClaimerUnaffected(s, s', q, s.claimers[q]);
    }
    forall r | r in s.completions
      ensures CompletionOk(s', s.completions[r])
    {
      assert CompletionOk(s, s.completions[r]);
    }
  }

  lemma {:induction false} StatKeeps(s: Sys, p: Pid, record: Record)
    requires Inv(s) && NoStaleLease(s)
    ensures Inv(Apply(s, Stat(p, record)))
  {
    var c := ClaimerOf(s, p);
    if c.phase.Scanning? && record in c.phase.todo {
      var todo := c.phase.todo - {record};
      MoveKeeps(s, p, Scanning(todo));
      MoveKeeps(s, p, Creating(todo, record));
      assert record.id in s.locks ==> !StaleLease(c.now, s.locks[record.id].mtime, s.staleMs);
    }
  }

  lemma {:induction false} CreateKeeps(s: Sys, p: Pid)
    requires Inv(s)
    ensures Inv(Apply(s, Create(p)))
  {
    var ph := ClaimerOf(s, p).phase;
    if ph.Creating? {
      if ph.record.id in s.locks {
        MoveKeeps(s, p, Scanning(ph.todo));
      } else {
        CreateWins(s, p);
      }
    }
  }

  /** A command whose claim file does not exist is pending or finished, and nobody holds it while it is pending. */
  lemma {:induction false} CreateWins(s: Sys, p: Pid)
    requires Inv(s) && ClaimerOf(s, p).phase.Creating? && ClaimerOf(s, p).phase.record.id !in s.locks
    ensures Inv(Apply(s, Create(p)))
  {
    var id := ClaimerOf(s, p).phase.record.id;
    var s' := Apply(s, Create(p));
    forall q | q in s'.claimers
      ensures ClaimerOk(s', q, s'.claimers[q])
    {
      if q != p {
        assert ClaimerOk(s, q, s.claimers[q]);
        ClaimerUnaffected(s, s', q, s.claimers[q]);
      }
    }
    forall r | r in s.completions
      ensures CompletionOk(s', s.completions[r])
    {
      assert CompletionOk(s, s.completions[r]);
    }
  }

  lemma {:induction false} RereadKeeps(s: Sys, p: Pid)
    requires Inv(s)
    ensures Inv(Apply(s, Reread(p)))
  {
    var ph := ClaimerOf(s, p).phase;
    if ph.Rereading? {
      var s' := Apply(s, Reread(p));
      assert ClaimerOk(s, p, s.claimers[p]) && s.files[ph.record.id].id == ph.record.id;
      assert ClaimerOk(s', p, s'.claimers[p]);
      forall q | q in s'.claimers && q != p
        ensures ClaimerOk(s', q, s'.claimers[q])
      {
        ClaimerUnaffected(s, s', q, s.claimers[q]);
      }
      forall r | r in s.completions
        ensures CompletionOk(s', s.completions[r])
      {
        assert CompletionOk(s, s.completions[r]);
      }
    }
  }

  lemma {:induction false} WriteKeepsClaimers(s: Sys, p: Pid, bridge: string)
    requires Inv(s) && ClaimerOf(s, p).phase.Writing?
    ensures var s' := Apply(s, Write(p, bridge));
            FilesOk(s') && ClaimersOk(s') && HandedIds(s'.handouts) == HandedIds(s.handouts) + {ClaimerOf(s, p).phase.record.id}
  {
    var s' := Apply(s, Write(p, bridge));
    var id := ClaimerOf(s, p).phase.record.id;
    assert HandedIds(s'.handouts) == HandedIds(s.handouts) + {id} by {
      assert s'.handouts[|s.handouts|] == (p, id);
      assert forall i :: 0 <= i < |s.handouts| ==> s'.handouts[i] == s.handouts[i];
    }
    assert ClaimerOk(s, p, s.claimers[p]);
    assert FilesOk(s') && ClaimerOk(s', p, s'.claimers[p]);
    hide Inv, FilesOk, ClaimedCopy;
    forall q | q in s.claimers && q != p
      ensures ClaimerOk(s', q, s.claimers[q])
    {
      WriterIsAlone(s, p, q);
      ClaimerUnaffected(s, s', q, s.claimers[q]);
    }
  }

  /** Nobody else holds a command that is about to be handed out. */
  lemma WriterIsAlone(s: Sys, p: Pid, q: Pid)
    requires Inv(s) && p in s.claimers && s.claimers[p].phase.Writing? && q in s.claimers && q != p
    ensures ClaimerOk(s, q, s.claimers[q]) && !Holds(s.claimers[q].phase, s.claimers[p].phase.record.id)
  {
    assert ClaimerOk(s, p, s.claimers[p]) && ClaimerOk(s, q, s.claimers[q]);
  }

  lemma {:induction false} WriteKeepsHandouts(s: Sys, p: Pid, bridge: string)
    requires Inv(s) && ClaimerOf(s, p).phase.Writing?
    requires HandedIds(Apply(s, Write(p, bridge)).handouts) == HandedIds(s.handouts) + {ClaimerOf(s, p).phase.record.id}
    ensures HandoutsOk(Apply(s, Write(p, bridge)))
  {
    assert forall i :: 0 <= i < |s.handouts| ==> s.handouts[i].1 in HandedIds(s.handouts);
  }

  lemma {:induction false} WriteKeepsCompletions(s: Sys, p: Pid, bridge: string)
    requires Inv(s) && ClaimerOf(s, p).phase.Writing?
    ensures CompletionsOk(Apply(s, Write(p, bridge)))
  {
    var s' := Apply(s, Write(p, bridge));
    var id := ClaimerOf(s, p).phase.record.id;
    forall r | r in s.completions
      ensures CompletionOk(s', s'.completions[r])
    {
      assert CompletionOk(s, s.completions[r]);
    }
  }

  lemma {:induction false} WriteKeeps(s: Sys, p: Pid, bridge: string)
    requires Inv(s)
    ensures Inv(Apply(s, Write(p, bridge)))
  {
    if ClaimerOf(s, p).phase.Writing? {
      WriteKeepsClaimers(s, p, bridge);
      WriteKeepsHandouts(s, p, bridge);
      WriteKeepsCompletions(s, p, bridge);
    }
  }

  /** A claim file of a finished command may be removed by anybody. */
  lemma {:induction false} UnlockKeeps(s: Sys, id: Id)
    requires Inv(s) && id in s.files && Terminal(s.files[id].status)
    ensures Inv(s.(locks := s.locks - {id}))
  {
    var s' := s.(locks := s.locks - {id});
    forall q | q in s.claimers
      ensures ClaimerOk(s', q, s.claimers[q])
    {
      ClaimerUnaffected(s, s', q, s.claimers[q]);
    }
    forall r | r in s.completions
      ensures CompletionOk(s', s.completions[r])
    {
      assert CompletionOk(s, s.completions[r]);
    }
  }

  lemma {:induction false} DropKeeps(s: Sys, p: Pid)
    requires Inv(s)
    ensures Inv(Apply(s, Drop(p)))
  {
    var ph := ClaimerOf(s, p).phase;
    if ph.Dropping? {
      assert ClaimerOk(s, p, s.claimers[p]);
      UnlockKeeps(s, ph.record.id);
      hide Inv;
      DropMoves(s.(locks := s.locks - {ph.record.id}), p, Scanning(ph.todo));
    }
  }

  lemma {:induction false} DropMoves(s: Sys, p: Pid, phase: Phase)
    requires Inv(s) && ClaimerOf(s, p).phase.Dropping? && phase == Scanning(ClaimerOf(s, p).phase.todo)
    ensures Inv(Move(s, p, phase))
  {
    assert ClaimerOk(s, p, s.claimers[p]);
    MoveKeeps(s, p, phase);
  }

  lemma {:induction false} CompleteReadKeeps(s: Sys, req: Request, id: Id, report: Report)
    requires Inv(s) && ClaimerCompletes(s, CompleteRead(req, id, report))
    ensures Inv(Apply(s, CompleteRead(req, id, report)))
  {
    var s' := Apply(s, CompleteRead(req, id, report));
    forall q | q in s'.claimers
      ensures ClaimerOk(s', q, s'.claimers[q])
    {
      ClaimerUnaffected(s, s', q, s.claimers[q]);
    }
  }

  lemma {:induction false} CompleteWriteKeepsFiles(s: Sys, req: Request)
    requires Inv(s) && req in s.completions && s.completions[req].ToWrite?
    ensures var s' := Apply(s, CompleteWrite(req)); FilesOk(s') && HandoutsOk(s') && Terminal(s'.files[s.completions[req].record.id].status)
  {
    assert CompletionOk(s, s.completions[req]);
  }

  lemma {:induction false} CompleteWriteKeeps(s: Sys, req: Request)
    requires Inv(s)
    ensures Inv(Apply(s, CompleteWrite(req)))
  {
    if req in s.completions && s.completions[req].ToWrite? {
      var s' := Apply(s, CompleteWrite(req));
      assert CompletionOk(s, s.completions[req]);
      CompleteWriteKeepsFiles(s, req);
      hide CompletedCopy;
      forall q | q in s.claimers
        ensures ClaimerOk(s', q, s.claimers[q])
      {
        assert ClaimerOk(s, q, s.claimers[q]);
        ClaimerUnaffected(s, s', q, s.claimers[q]);
      }
      forall r | r in s'.completions
        ensures CompletionOk(s', s'.completions[r])
      {
        assert CompletionOk(s, s.completions[r]);
      }
    }
  }

  lemma {:induction false} CompleteRemoveKeeps(s: Sys, req: Request)
    requires Inv(s)
    ensures Inv(Apply(s, CompleteRemove(req)))
  {
    if req in s.completions && s.completions[req].ToRemove? {
      assert CompletionOk(s, s.completions[req]);
      var t := s.(locks := s.locks - {s.completions[req].record.id});
      UnlockKeeps(s, s.completions[req].record.id);
      ForgetKeeps(t, req);
    }
  }

  lemma ForgetKeeps(s: Sys, req: Request)
    requires Inv(s)
    ensures Inv(s.(completions := s.completions - {req}))
  {
    var s' := s.(completions := s.completions - {req});
    forall q | q in s.claimers
      ensures ClaimerOk(s', q, s.claimers[q])
    {
      ClaimerUnaffected(s, s', q, s.claimers[q]);
    }
  }

  lemma {:induction false} StepKeeps(s: Sys, a: Action)
    requires Inv(s) && NoStaleLease(s) && ClaimerCompletes(s, a)
    ensures Inv(Apply(s, a))
  {
    match a
    case Wait(ms) => WaitKeeps(s, ms);
    case Enqueue(id, capability, params) => EnqueueKeeps(s, id, capability, params);
    case Begin(p, limit) => BeginKeeps(s, p, limit);
    case ReadOne(p, id) => ReadOneKeeps(s, p, id);
    case EndList(p) => EndListKeeps(s, p);
    case Stat(p, record) => StatKeeps(s, p, record);
    case Remove(p) =>
    case Create(p) => CreateKeeps(s, p);
    case Reread(p) => RereadKeeps(s, p);
    case Write(p, bridge) => WriteKeeps(s, p, bridge);
    case Drop(p) => DropKeeps(s, p);
    case Return(p) => ReturnKeeps(s, p);
    case CompleteRead(req, id, report) => CompleteReadKeeps(s, req, id, report);
    case CompleteWrite(req) => CompleteWriteKeeps(s, req);
    case CompleteRemove(req) => CompleteRemoveKeeps(s, req);
  }

  lemma {:induction false} RunKeeps(s: Sys, run: seq<Action>)
    requires Inv(s) && Disciplined(s, run)
    ensures Inv(Exec(s, run))
    decreases |run|
  {
    hide Inv, Apply, NoStaleLease, ClaimerCompletes;
    if run != [] {
      StepKeeps(s, run[0]);
      RunKeeps(Apply(s, run[0]), run[1..]);
    }
  }

  /**
   * Claim exclusivity. However the file-system calls of any number of processes interleave, reports
   * that overlap each other included, no command is handed out twice, so no record ever counts more
   * than one attempt.
   */
  lemma {:induction false} ClaimExclusive(staleMs: nat, run: seq<Action>)
    requires Disciplined(Initial(staleMs), run)
    ensures var s := Exec(Initial(staleMs), run);
            && (forall i, j :: 0 <= i < j < |s.handouts| ==> s.handouts[i].1 != s.handouts[j].1)
            && (forall id :: id in s.files ==> s.files[id].attempts <= 1)
            && (forall i :: 0 <= i < |s.handouts| ==>
                  s.handouts[i].1 in s.files && s.files[s.handouts[i].1].attempts == 1)
  {
    assert Inv(Initial(staleMs));
    RunKeeps(Initial(staleMs), run);
    var s := Exec(Initial(staleMs), run);
    assert forall i :: 0 <= i < |s.handouts| ==> s.handouts[i].1 in HandedIds(s.handouts);
  }

  // ---------------------------------------------------------------- where the hypotheses are needed

  ghost predicate Trace(states: seq<Sys>, run: seq<Action>) {
    |states| == |run| + 1 && forall i :: 0 <= i < |run| ==> states[i + 1] == Apply(states[i], run[i])
  }

  lemma {:induction false} TraceIsExec(states: seq<Sys>, run: seq<Action>)
    requires Trace(states, run)
    ensures Exec(states[0], run) == states[|run|]
    decreases |run|
  {
    if run != [] {
      TraceIsExec(states[1..], run[1..]);
    }
  }

  function Queued(): Record {
    NewRecord("c", "bridge.status", "null", 0)
  }

  /** Process 0 holds "c" and its claim call has returned. */
  function HeldByZero(): Sys {
    Sys(0, 60000, map["c" := ClaimedCopy(Queued(), "bridge", 0)], map["c" := Lease(0, 0)],
        map[0 := Claimer(Idle, 0, 1, ["c"])], map[], [(0, "c")], {"c"})
  }

  function ListRun(p: Pid): seq<Action> {
    [Begin(p, 1), ReadOne(p, "c"), EndList(p)]
  }

  /** Listing a directory that holds only the record of "c". */
  lemma {:induction false} ListsOne(s: Sys, p: Pid, r: Record)
    requires s.files == map["c" := r] && ClaimerOf(s, p).phase.Idle?
    ensures Exec(s, ListRun(p)) == s.(claimers := s.claimers[p := Claimer(Scanning({r}), s.clock, 1, [])])
  {
    var s1 := s.(claimers := s.claimers[p := Claimer(Listing({"c"}, {}), s.clock, 1, [])]);
    var s2 := s.(claimers := s.claimers[p := Claimer(Listing({}, {r}), s.clock, 1, [])]);
    var s3 := s.(claimers := s.claimers[p := Claimer(Scanning({r}), s.clock, 1, [])]);
    assert s.files.Keys == {"c"};
    assert Apply(s, Begin(p, 1)) == s1;
    assert Apply(s1, ReadOne(p, "c")) == s2 by { assert {"c"} - {"c"} == {} && {} + {r} == {r}; }
    assert Apply(s2, EndList(p)) == s3;
    TraceIsExec([s, s1, s2, s3], ListRun(p));
  }

  /** A claimer about to create the free claim file of "c" wins it and re-reads the record. */
  lemma {:induction false} WinsFree(s: Sys, p: Pid, r: Record)
    requires s.files == map["c" := r] && r.id == "c" && !Terminal(r.status) && s.locks == map[]
    requires p in s.claimers && s.claimers[p].phase == Creating({}, r)
    ensures Apply(Apply(s, Create(p)), Reread(p))
            == s.(locks := map["c" := Lease(p, s.clock)], claimers := s.claimers[p := s.claimers[p].(phase := Writing({}, r))])
  {
    var s1 := Apply(s, Create(p));
    assert s1.locks == map["c" := Lease(p, s.clock)];
    assert s1.claimers[p].phase == Rereading({}, r);
    var s2 := Apply(s1, Reread(p));
    assert s2.claimers == s.claimers[p := s.claimers[p].(phase := Writing({}, r))];
  }

  /** Process 0 after winning the claim file of "c", when it has re-read the record but not written it yet. */
  function WonByZero(): Sys {
    Sys(0, 60000, map["c" := Queued()], map["c" := Lease(0, 0)], map[0 := Claimer(Writing({}, Queued()), 0, 1, [])], map[], [], {})
  }

  lemma {:induction false} WonByZeroIsReached()
    ensures var listed := Exec(Apply(Initial(60000), Enqueue("c", "bridge.status", "null")), ListRun(0));
            Apply(Apply(Apply(listed, Stat(0, Queued())), Create(0)), Reread(0)) == WonByZero()
  {
    var r := Queued();
    var s0 := Apply(Initial(60000), Enqueue("c", "bridge.status", "null"));
    ListsOne(s0, 0, r);
    var s3 := Exec(s0, ListRun(0));
    var s4 := Apply(s3, Stat(0, r));
    assert s4.claimers[0].phase == Creating({}, r) by { assert {r} - {r} == {}; }
    WinsFree(s4, 0, r);
    var s6 := Apply(Apply(s4, Create(0)), Reread(0));
    assert s6.claimers == WonByZero().claimers;
  }

  lemma {:induction false} HeldByZeroIsReached()
    ensures Apply(Apply(WonByZero(), Write(0, "bridge")), Return(0)) == HeldByZero()
  {
    var t := Apply(WonByZero(), Write(0, "bridge"));
    assert t.claimers[0].claimed == ["c"] && t.handouts == [(0, "c")];
    assert (set id | id in ["c"]) == {"c"};
    assert Apply(t, Return(0)).claimers == HeldByZero().claimers;
  }

  /**
   * A report on a command whose claim has not returned, with no lease stale and no other report: it
   * lands between the re-read and the write of the claim, so the done record becomes claimed, and
   * nobody holds its claim file any more. Hence "completed only after its claim returned" above.
   */
  lemma {:induction false} EarlyReportIsOverwritten(v: Value)
    ensures var reading := Apply(WonByZero(), CompleteRead(0, "c", Success(v)));
            var done := Apply(Apply(reading, CompleteWrite(0)), CompleteRemove(0));
            var after := Apply(done, Write(0, "bridge"));
            && NoStaleLease(WonByZero()) && NoStaleLease(reading) && NoStaleLease(done) && NoStaleLease(after)
            && "c" in done.files && done.files["c"].status.Done?
            && "c" in after.files && after.files["c"].status.Claimed? && "c" !in after.locks
  {
    var reading := Apply(WonByZero(), CompleteRead(0, "c", Success(v)));
    assert reading.completions[0].ToWrite?;
    var written := Apply(reading, CompleteWrite(0));
    assert written.completions[0].ToRemove?;
  }

  /**
   * Two overlapping reports on one claimed command: both read it before either writes, so the second
   * write replaces a done record by a failed one. Hence "one report at a time" above.
   */
  lemma {:induction false} OverlappingReportsRewrite(v: Value, e: Value)
    ensures var s := Exec(HeldByZero(), [CompleteRead(0, "c", Success(v)), CompleteRead(1, "c", Failure(e)), CompleteWrite(0)]);
            var t := Apply(s, CompleteWrite(1));
            "c" in s.files && "c" in t.files && s.files["c"].status.Done? && t.files["c"].status.Failed?
  {
    var run := [CompleteRead(0, "c", Success(v)), CompleteRead(1, "c", Failure(e)), CompleteWrite(0)];
    var s0 := HeldByZero();
    var r := s0.files["c"];
    var s1 := s0.(completions := map[0 := ToWrite(r, Success(v))]);
    var s2 := s0.(completions := map[0 := ToWrite(r, Success(v)), 1 := ToWrite(r, Failure(e))]);
    var s3 := Apply(s2, run[2]);
    assert Apply(s0, run[0]) == s1;
    assert Apply(s1, run[1]) == s2;
    TraceIsExec([s0, s1, s2, s3], run);
  }

  /** Process 1 after taking over the lease of "c", when it has re-read the record but not written it yet. */
  function TakingOver(): Sys {
    var r := ClaimedCopy(Queued(), "bridge", 0);
    HeldByZero().(clock := 60000, locks := map["c" := Lease(1, 60000)],
                  claimers := map[0 := Claimer(Idle, 0, 1, ["c"]), 1 := Claimer(Writing({}, r), 60000, 1, [])])
  }

  /** A claimer that finds the lease of the claimed record "c" stale removes the claim file. */
  lemma {:induction false} RemovesStale(s: Sys, p: Pid, r: Record)
    requires r.id == "c" && r.status.Claimed? && s.locks.Keys == {"c"} && StaleLease(s.clock, s.locks["c"].mtime, s.staleMs)
    requires p in s.claimers && s.claimers[p] == Claimer(Scanning({r}), s.clock, 1, [])
    ensures Apply(Apply(s, Stat(p, r)), Remove(p))
            == s.(locks := map[], claimers := s.claimers[p := s.claimers[p].(phase := Creating({}, r))])
  {
    var s1 := Apply(s, Stat(p, r));
    assert s1.claimers[p].phase == Removing({}, r) by { assert {r} - {r} == {}; }
    var s2 := Apply(s1, Remove(p));
    assert s2.locks == map[];
    assert s2.claimers == s.claimers[p := s.claimers[p].(phase := Creating({}, r))];
  }

  lemma {:induction false} TakingOverIsReached()
    ensures var listed := Exec(Apply(HeldByZero(), Wait(60000)), ListRun(1));
            var removed := Apply(Apply(listed, Stat(1, HeldByZero().files["c"])), Remove(1));
            Apply(Apply(removed, Create(1)), Reread(1)) == TakingOver()
  {
    var r := ClaimedCopy(Queued(), "bridge", 0);
    var c0 := Claimer(Idle, 0, 1, ["c"]);
    var s1 := HeldByZero().(clock := 60000);
    ListsOne(s1, 1, r);
    var s4 := s1.(claimers := map[0 := c0, 1 := Claimer(Scanning({r}), 60000, 1, [])]);
    assert s1.claimers[1 := Claimer(Scanning({r}), 60000, 1, [])] == s4.claimers;
    RemovesStale(s4, 1, r);
    var s6 := s1.(locks := map[], claimers := map[0 := c0, 1 := Claimer(Creating({}, r), 60000, 1, [])]);
    assert s4.claimers[1 := Claimer(Creating({}, r), 60000, 1, [])] == s6.claimers;
    WinsFree(s6, 1, r);
    assert s6.claimers[1 := Claimer(Writing({}, r), 60000, 1, [])] == TakingOver().claimers;
  }

  /**
   * The first owner's report lands between the re-read and the write of a takeover: the done record
   * becomes claimed again. Hence "no stale lease" above.
   */
  lemma {:induction false} TakeoverRewrites(v: Value)
    ensures var done := Apply(Apply(TakingOver(), CompleteRead(0, "c", Success(v))), CompleteWrite(0));
            var after := Apply(done, Write(1, "other"));
            "c" in done.files && done.files["c"].status.Done? && "c" in after.files && after.files["c"].status.Claimed?
  {
    var reading := Apply(TakingOver(), CompleteRead(0, "c", Success(v)));
    assert reading.completions[0].ToWrite?;
  }
}
