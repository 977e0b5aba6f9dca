/**
 * What the command queue keeps over every run of whole operations (capabilities.mjs): the directory stays
 * consistent, records only move forward, and claims drain the queue in order.
 */
module QueueLifecycle {
  import opened Options
  import ObjectKeys
  import opened Commands
  import opened CommandQueue
  import opened TextOrder
  import TimeIds

  datatype Action =
    | Enqueue(id: Id, capability: string, params: string, allowed: bool, now: Millis)
    | Claim(max: nat, bridge: string, now: Millis)
    | Complete(id: Id, report: Report, now: Millis)
    | Sweep(now: Millis)

  /** The directory, and how often each command was handed out so far. */
  datatype History = History(disk: Disk, handed: multiset<Id>)

  function IdsOf(records: seq<Record>): seq<Id> {
    seq(|records|, i requires 0 <= i < |records| => records[i].id)
  }

  /** One operation. Generated ids are fresh, so an id that exists already is not enqueued again. */
  ghost function Apply(h: History, p: Policy, a: Action): History {
    match a
    case Enqueue(id, capability, params, allowed, now) =>
      if id in h.disk.files then h
      else h.(disk := EnqueueOn(h.disk, p, NewRecord(id, capability, params, now), allowed).0)
    case Claim(max, bridge, now) =>
      var (d, got) := ClaimOn(h.disk, p, max, bridge, now);
      History(d, h.handed + multiset(IdsOf(got)))
    case Complete(id, report, now) => h.(disk := CompleteOn(h.disk, p, id, report, now).0)
    case Sweep(now) => h.(disk := SweepOn(h.disk, p, now).0)
  }

  ghost function Exec(h: History, p: Policy, run: seq<Action>): History
    decreases |run|
  {
    if run == [] then h else Exec(Apply(h, p, run[0]), p, run[1..])
  }

  /** Files are named by their record's id; a claim file exists exactly while a command is claimed. */
  ghost predicate WellFormed(d: Disk) {
    && (forall id :: id in d.files ==> d.files[id].id == id)
    && (forall id :: id in d.claims <==> id in d.files && d.files[id].status.Claimed?)
  }

  ghost predicate Inv(h: History) {
    && WellFormed(h.disk)
    && (forall id :: id in h.handed ==> id in h.disk.files)
    && (forall id :: id in h.disk.files ==> h.disk.files[id].attempts == h.handed[id])
  }

  // ---------------------------------------------------------------- claim

  /** What `claim` may hand out: a pending command, or a claimed one whose lease went stale. */
  predicate Claimable(d: Disk, id: Id, staleMs: nat, now: Millis) {
    id in d.files &&
    (d.files[id].status.Pending? ||
     (d.files[id].status.Claimed? && id in d.claims && StaleLease(now, d.claims[id], staleMs)))
  }

  function Claimables(d: Disk, names: seq<Id>, staleMs: nat, now: Millis): seq<Id> {
    if names == [] then []
    else (if Claimable(d, names[0], staleMs, now) then [names[0]] else []) + Claimables(d, names[1..], staleMs, now)
  }

  function First(max: nat, ids: seq<Id>): seq<Id> {
    if max < |ids| then ids[..max] else ids
  }

  /** The directory after the commands `ids` were claimed. */
  function Marked(d: Disk, ids: seq<Id>, bridge: string, now: Millis): Disk {
    Disk(map id | id in d.files :: if id in ids then ClaimedCopy(d.files[id], bridge, now) else d.files[id],
         map id | id in d.claims.Keys + (set x | x in ids) :: if id in ids then now else d.claims[id])
  }

  lemma {:induction false} MarkedIsWellFormed(d: Disk, ids: seq<Id>, bridge: string, now: Millis)
    requires WellFormed(d) && forall id :: id in ids ==> id in d.files
    ensures WellFormed(Marked(d, ids, bridge, now))
  {
  }

  lemma {:induction false} ClaimOneEffect(d: Disk, id: Id, staleMs: nat, bridge: string, now: Millis)
    requires WellFormed(d) && id in d.files
    ensures ClaimOne(d, d.files[id], staleMs, bridge, now)
            == if Claimable(d, id, staleMs, now) then (Marked(d, [id], bridge, now), [ClaimedCopy(d.files[id], bridge, now)])
               else (d, [])
  {
    var marked := Marked(d, [id], bridge, now);
    var r := d.files[id];
    if r.status.Pending? {
      assert marked.files == d.files[id := ClaimedCopy(r, bridge, now)];
      assert marked.claims == d.claims[id := now];
    } else if r.status.Claimed? && StaleLease(now, d.claims[id], staleMs) {
      assert marked.files == d.files[id := ClaimedCopy(r, bridge, now)];
      assert marked.claims == (d.claims - {id})[id := now];
    }
  }

  lemma {:induction false} ClaimablesIn(d: Disk, names: seq<Id>, staleMs: nat, now: Millis)
    ensures forall id :: id in Claimables(d, names, staleMs, now) <==> id in names && Claimable(d, id, staleMs, now)
    ensures Sorted(names) ==> Sorted(Claimables(d, names, staleMs, now))
    decreases |names|
  {
    if names != [] {
      ClaimablesIn(d, names[1..], staleMs, now);
      assert forall id :: id in names <==> id == names[0] || id in names[1..];
      if Sorted(names) {
        forall id | id in names[1..]
          ensures Less(names[0], id)
        {
          var i :| 0 <= i < |names[1..]| && names[1..][i] == id;
          assert names[i + 1] == id;
        }
      }
    }
  }

  /** Marking one command leaves the listing of the others alone. */
  lemma {:induction false} MarkOther(d: Disk, id: Id, names: seq<Id>, staleMs: nat, bridge: string, now: Millis)
    requires id !in names && id in d.files && forall k :: k in names ==> k in d.files
    ensures forall k :: k in names ==> k in Marked(d, [id], bridge, now).files
    ensures Snapshot(Marked(d, [id], bridge, now), names) == Snapshot(d, names)
    ensures Claimables(Marked(d, [id], bridge, now), names, staleMs, now) == Claimables(d, names, staleMs, now)
    decreases |names|
  {
    if names != [] {
      MarkOther(d, id, names[1..], staleMs, bridge, now);
    }
  }

  lemma {:induction false} MarkTwice(d: Disk, id: Id, ids: seq<Id>, bridge: string, now: Millis)
    requires id !in ids && id in d.files && forall k :: k in ids ==> k in d.files
    ensures Marked(Marked(d, [id], bridge, now), ids, bridge, now) == Marked(d, [id] + ids, bridge, now)
  {
    var once := Marked(d, [id], bridge, now);
    var twice := Marked(once, ids, bridge, now);
    var both := Marked(d, [id] + ids, bridge, now);
    assert forall k :: k in [id] + ids <==> k == id || k in ids;
    assert twice.files == both.files;
    assert twice.claims == both.claims;
  }

  lemma {:induction false} SortedTail(names: seq<Id>)
    requires Sorted(names) && names != []
    ensures names[0] !in names[1..] && Sorted(names[1..])
  {
    LessIrreflexive(names[0]);
    forall i | 0 <= i < |names[1..]|
      ensures names[1..][i] != names[0]
    {
      assert names[1..][i] == names[i + 1] && Less(names[0], names[i + 1]);
    }
  }

  /** Records handed out are the marked copies of the ids, in order. */
  ghost predicate Copies(d: Disk, got: seq<Record>, ids: seq<Id>, bridge: string, now: Millis) {
    && IdsOf(got) == ids
    && forall i :: 0 <= i < |got| ==> got[i].id in d.files && got[i] == ClaimedCopy(d.files[got[i].id], bridge, now)
  }

  /** The copies made behind one marked command are copies of the original records. */
  lemma {:induction false} CopiesBehind(d: Disk, id: Id, later: seq<Record>, rest: seq<Id>, bridge: string, now: Millis)
    requires id in d.files && d.files[id].id == id && id !in rest
    requires Copies(Marked(d, [id], bridge, now), later, rest, bridge, now)
    ensures Copies(d, [ClaimedCopy(d.files[id], bridge, now)] + later, [id] + rest, bridge, now)
  {
    var got := [ClaimedCopy(d.files[id], bridge, now)] + later;
    assert IdsOf(got) == [id] + IdsOf(later);
    forall i | 0 <= i < |later|
      ensures later[i].id in d.files && later[i] == ClaimedCopy(d.files[later[i].id], bridge, now)
    {
      assert IdsOf(later)[i] in rest;
    }
  }

  /** The claim loop over the files `names` marks and returns the first `max` claimable ones. */
  ghost predicate TakesFirst(d: Disk, names: seq<Id>, max: nat, staleMs: nat, bridge: string, now: Millis)
    requires forall k :: k in names ==> k in d.files
  {
    var r := ClaimAll(d, Snapshot(d, names), max, staleMs, bridge, now);
    var ids := First(max, Claimables(d, names, staleMs, now));
    r.0 == Marked(d, ids, bridge, now) && Copies(d, r.1, ids, bridge, now)
  }

  lemma TakesNone(d: Disk, names: seq<Id>, max: nat, staleMs: nat, bridge: string, now: Millis)
    requires (forall k :: k in names ==> k in d.files) && (names == [] || max == 0)
    ensures TakesFirst(d, names, max, staleMs, bridge, now)
  {
    assert First(max, Claimables(d, names, staleMs, now)) == [];
    assert Marked(d, [], bridge, now).files == d.files && Marked(d, [], bridge, now).claims == d.claims;
  }

  lemma FirstClaimable(d: Disk, names: seq<Id>, max: nat, staleMs: nat, now: Millis)
    requires names != [] && max > 0 && Claimable(d, names[0], staleMs, now)
    ensures First(max, Claimables(d, names, staleMs, now)) == [names[0]] + First(max - 1, Claimables(d, names[1..], staleMs, now))
    ensures forall k :: k in First(max - 1, Claimables(d, names[1..], staleMs, now)) ==> k in Claimables(d, names[1..], staleMs, now)
  {
    hide Claimable;
  }

  /** The loop takes the first command and goes on with the others as they are listed. */
  lemma {:induction false} ClaimStep(d: Disk, names: seq<Id>, max: nat, staleMs: nat, bridge: string, now: Millis)
    requires WellFormed(d) && names != [] && names[0] !in names[1..] && max > 0 && forall k :: k in names ==> k in d.files
    requires Claimable(d, names[0], staleMs, now)
    ensures var d1 := Marked(d, [names[0]], bridge, now);
            && (forall k :: k in names[1..] ==> k in d1.files)
            && var later := ClaimAll(d1, Snapshot(d1, names[1..]), max - 1, staleMs, bridge, now);
               ClaimAll(d, Snapshot(d, names), max, staleMs, bridge, now) == (later.0, [ClaimedCopy(d.files[names[0]], bridge, now)] + later.1)
  {
    hide ClaimOne, ClaimAll, Marked, Claimable;
    var todo := Snapshot(d, names);
    assert todo[0] == d.files[names[0]] && todo[1..] == Snapshot(d, names[1..]);
    ClaimOneEffect(d, names[0], staleMs, bridge, now);
    ClaimAllFirst(d, todo, max, staleMs, bridge, now);
    MarkOther(d, names[0], names[1..], staleMs, bridge, now);
  }

  lemma {:induction false} TakesClaimable(d: Disk, names: seq<Id>, max: nat, staleMs: nat, bridge: string, now: Millis)
    requires WellFormed(d) && Sorted(names) && names != [] && max > 0 && forall k :: k in names ==> k in d.files
    requires Claimable(d, names[0], staleMs, now)
    requires (forall k :: k in names[1..] ==> k in Marked(d, [names[0]], bridge, now).files)
    requires TakesFirst(Marked(d, [names[0]], bridge, now), names[1..], max - 1, staleMs, bridge, now)
    ensures TakesFirst(d, names, max, staleMs, bridge, now)
  {
    hide WellFormed, ClaimOne, ClaimAll, Copies, Marked, Sorted, Claimable, Claimables, First, Snapshot;
    var id := names[0];
    var d1 := Marked(d, [id], bridge, now);
    SortedTail(names);
    ClaimStep(d, names, max, staleMs, bridge, now);
    FirstClaimable(d, names, max, staleMs, now);
    ClaimablesIn(d, names[1..], staleMs, now);
    MarkOther(d, id, names[1..], staleMs, bridge, now);
    var rest := First(max - 1, Claimables(d, names[1..], staleMs, now));
    MarkTwice(d, id, rest, bridge, now);
    NamedById(d, id);
    CopiesBehind(d, id, ClaimAll(d1, Snapshot(d1, names[1..]), max - 1, staleMs, bridge, now).1, rest, bridge, now);
  }

  lemma NamedById(d: Disk, id: Id)
    requires WellFormed(d) && id in d.files
    ensures d.files[id].id == id
  {
  }

  lemma {:induction false} SkipsOther(d: Disk, names: seq<Id>, max: nat, staleMs: nat, bridge: string, now: Millis)
    requires WellFormed(d) && names != [] && max > 0 && forall k :: k in names ==> k in d.files
    requires !Claimable(d, names[0], staleMs, now)
    requires TakesFirst(d, names[1..], max, staleMs, bridge, now)
    ensures TakesFirst(d, names, max, staleMs, bridge, now)
  {
    hide ClaimOne, ClaimAll, Copies, Marked, Claimable;
    var todo := Snapshot(d, names);
    assert todo[0] == d.files[names[0]] && todo[1..] == Snapshot(d, names[1..]);
    ClaimOneEffect(d, names[0], staleMs, bridge, now);
    ClaimAllFirst(d, todo, max, staleMs, bridge, now);
    var later := ClaimAll(d, Snapshot(d, names[1..]), max, staleMs, bridge, now);
    assert [] + later.1 == later.1;
    assert Claimables(d, names, staleMs, now) == Claimables(d, names[1..], staleMs, now);
  }

  lemma MarkedKeepsFiles(d: Disk, id: Id, bridge: string, now: Millis)
    requires id in d.files
    ensures Marked(d, [id], bridge, now).files.Keys == d.files.Keys
  {
  }

  lemma {:induction false} ClaimAllEffect(d: Disk, names: seq<Id>, max: nat, staleMs: nat, bridge: string, now: Millis)
    requires WellFormed(d) && Sorted(names) && forall k :: k in names ==> k in d.files
    ensures TakesFirst(d, names, max, staleMs, bridge, now)
    decreases |names|
  {
    hide TakesFirst, Sorted, Claimable, WellFormed, Marked;
    if names == [] || max == 0 {
      TakesNone(d, names, max, staleMs, bridge, now);
    } else {
      SortedTail(names);
      TailIsIn(d, names);
      if Claimable(d, names[0], staleMs, now) {
        MarkedKeepsFiles(d, names[0], bridge, now);
        MarkedIsWellFormed(d, [names[0]], bridge, now);
        ClaimAllEffect(Marked(d, [names[0]], bridge, now), names[1..], max - 1, staleMs, bridge, now);
        TakesClaimable(d, names, max, staleMs, bridge, now);
      } else {
        ClaimAllEffect(d, names[1..], max, staleMs, bridge, now);
        SkipsOther(d, names, max, staleMs, bridge, now);
      }
    }
  }

  lemma TailIsIn(d: Disk, names: seq<Id>)
    requires names != [] && forall k :: k in names ==> k in d.files
    ensures names[0] in d.files && forall k :: k in names[1..] ==> k in d.files
  {
  }

  lemma ClaimAllFirst(d: Disk, todo: seq<Record>, max: nat, staleMs: nat, bridge: string, now: Millis)
    requires todo != [] && max > 0
    ensures var (d1, got) := ClaimOne(d, todo[0], staleMs, bridge, now);
            |got| <= 1 &&
            var rest := ClaimAll(d1, todo[1..], max - |got|, staleMs, bridge, now);
            ClaimAll(d, todo, max, staleMs, bridge, now) == (rest.0, got + rest.1)
  {
  }

  /**
   * `claim` hands out the first `max` claimable commands in id order, counts one more attempt for
   * each, writes their claim files and changes nothing else.
   */
  lemma {:induction false} ClaimEffect(d: Disk, p: Policy, max: nat, bridge: string, now: Millis)
    requires WellFormed(d)
    ensures var (d', got) := ClaimOn(d, p, max, bridge, now);
            var ids := First(max, Claimables(d, Listing(d.files.Keys), p.claimStaleMs, now));
            d' == Marked(d, ids, bridge, now) && Copies(d, got, ids, bridge, now) && HandsOut(d, d', got, ids, bridge, now)
  {
    hide Claimable, ClaimAll, HandsOut, First, Claimables, Marked, Copies;
    var all := Claimables(d, Listing(d.files.Keys), p.claimStaleMs, now);
    ClaimAllEffect(d, Listing(d.files.Keys), max, p.claimStaleMs, bridge, now);
    ClaimablesIn(d, Listing(d.files.Keys), p.claimStaleMs, now);
    FirstAreIn(max, all);
    MarkedHandsOut(d, ClaimOn(d, p, max, bridge, now).1, First(max, all), bridge, now);
  }

  lemma FirstAreIn(max: nat, ids: seq<Id>)
    ensures |First(max, ids)| <= max && forall k :: k in First(max, ids) ==> k in ids
  {
  }

  /** Field by field: these commands are handed out, and nothing else changes. */
  ghost predicate HandsOut(d: Disk, d': Disk, got: seq<Record>, ids: seq<Id>, bridge: string, now: Millis) {
    && |got| == |ids| && d'.files.Keys == d.files.Keys
    && (forall i :: 0 <= i < |ids| ==> ids[i] in d.files && got[i] == d'.files[ids[i]] && IsClaim(d.files[ids[i]], got[i], bridge, now))
    && (forall id :: id in d.files && id !in ids ==> d'.files[id] == d.files[id])
    && (forall id :: id in d'.claims <==> id in d.claims || id in ids)
    && (forall id :: id in d'.claims ==> d'.claims[id] == if id in ids then now else if id in d.claims then d.claims[id] else 0)
  }

  lemma {:induction false} MarkedHandsOut(d: Disk, got: seq<Record>, ids: seq<Id>, bridge: string, now: Millis)
    requires (forall k :: k in ids ==> k in d.files) && Copies(d, got, ids, bridge, now)
    ensures HandsOut(d, Marked(d, ids, bridge, now), got, ids, bridge, now)
  {
    forall i | 0 <= i < |ids|
      ensures ids[i] in d.files && got[i] == Marked(d, ids, bridge, now).files[ids[i]] && IsClaim(d.files[ids[i]], got[i], bridge, now)
    {
      assert ids[i] in ids && got[i].id == IdsOf(got)[i];
    }
  }

  /** What may be handed out: a pending command, or a claimed one whose claim file is as old as the lease allows. */
  lemma ClaimableIff(d: Disk, id: Id, staleMs: nat, now: Millis)
    requires WellFormed(d)
    ensures Claimable(d, id, staleMs, now) <==>
              && id in d.files
              && (d.files[id].status.Pending? || (id in d.claims && staleMs > 0 && d.claims[id] + staleMs <= now))
  {
  }

  // ---------------------------------------------------------------- order

  /** The time at which newId read the clock for this command id. */
  function TakenAt(id: Id): nat {
    TimeIds.TimeOfId("cmd", id)
  }

  /** The id of a record was generated by newId("cmd") before its createdAt was read. */
  ghost predicate WellNamed(id: Id, createdAt: Millis) {
    TakenAt(id) <= createdAt && exists t: nat, random: string :: t < TimeIds.Pow32(TimeIds.STAMP_CHARS) && id == TimeIds.Id("cmd", t, random)
  }

  ghost predicate Stamped(d: Disk) {
    forall id :: id in d.files ==> d.files[id].createdAt.Some? && WellNamed(id, d.files[id].createdAt.value)
  }

  lemma {:induction false} EarlierIdIsOlder(d: Disk, a: Id, b: Id)
    requires Stamped(d) && a in d.files && b in d.files && Less(a, b)
    ensures TakenAt(a) <= TakenAt(b)
  {
    assert WellNamed(a, d.files[a].createdAt.value) && WellNamed(b, d.files[b].createdAt.value);
    var t: nat, x: string :| t < TimeIds.Pow32(TimeIds.STAMP_CHARS) && a == TimeIds.Id("cmd", t, x);
    var u: nat, y: string :| u < TimeIds.Pow32(TimeIds.STAMP_CHARS) && b == TimeIds.Id("cmd", u, y);
    TimeIds.IdRoundTrip("cmd", t, x);
    TimeIds.IdRoundTrip("cmd", u, y);
    if t != u {
      TimeIds.IdOrderIsTimeOrder("cmd", t, x, u, y);
    }
  }

  /**
   * The queue drains in the order in which the ids were taken: nothing claimable that is older is left
   * behind, in particular nothing whose record was complete before.
   */
  lemma {:induction false} ClaimDrainsInOrder(d: Disk, p: Policy, max: nat, bridge: string, now: Millis)
    requires WellFormed(d) && Stamped(d)
    ensures var ids := IdsOf(ClaimOn(d, p, max, bridge, now).1);
            && |ids| <= max
            && (forall i :: 0 <= i < |ids| ==> Claimable(d, ids[i], p.claimStaleMs, now))
            && (forall i, j :: 0 <= i < j < |ids| ==> ids[i] != ids[j] && TakenAt(ids[i]) <= TakenAt(ids[j]) <= d.files[ids[j]].createdAt.Or(0))
            && (forall id :: Claimable(d, id, p.claimStaleMs, now) && id !in ids ==>
                  |ids| == max && forall i :: 0 <= i < |ids| ==> TakenAt(ids[i]) <= TakenAt(id) <= d.files[id].createdAt.Or(0))
  {
    hide Stamped, WellFormed, ClaimOn, Claimable, Claimables, Marked, Copies;
    var all := Claimables(d, Listing(d.files.Keys), p.claimStaleMs, now);
    ClaimEffect(d, p, max, bridge, now);
    CopiesAre(d, ClaimOn(d, p, max, bridge, now).1, First(max, all), bridge, now);
    ClaimablesIn(d, Listing(d.files.Keys), p.claimStaleMs, now);
    ClaimableIsIn(d, p.claimStaleMs, now);
    assert forall id :: id in all <==> Claimable(d, id, p.claimStaleMs, now);
    FirstIsOldest(d, max, all);
    TakenBeforeCreated(d);
  }

  lemma CopiesAre(d: Disk, got: seq<Record>, ids: seq<Id>, bridge: string, now: Millis)
    requires Copies(d, got, ids, bridge, now)
    ensures IdsOf(got) == ids
  {
  }

  lemma ClaimableIsIn(d: Disk, staleMs: nat, now: Millis)
    ensures forall id :: Claimable(d, id, staleMs, now) ==> id in Listing(d.files.Keys)
  {
  }

  lemma TakenBeforeCreated(d: Disk)
    requires Stamped(d)
    ensures forall id :: id in d.files ==> TakenAt(id) <= d.files[id].createdAt.Or(0)
  {
  }

  /** The first ids of a sorted list belong to the oldest commands in it. */
  lemma {:induction false} FirstIsOldest(d: Disk, max: nat, all: seq<Id>)
    requires Stamped(d) && Sorted(all) && forall id :: id in all ==> id in d.files
    ensures var ids := First(max, all);
            && |ids| <= max && (forall i :: 0 <= i < |ids| ==> ids[i] in all)
            && (forall i, j :: 0 <= i < j < |ids| ==> ids[i] != ids[j] && TakenAt(ids[i]) <= TakenAt(ids[j]))
            && (forall id :: id in all && id !in ids ==> |ids| == max && forall i :: 0 <= i < |ids| ==> TakenAt(ids[i]) <= TakenAt(id))
  {
    hide Stamped, TakenAt;
    var ids := First(max, all);
    forall i, j | 0 <= i < j < |all|
      ensures all[i] != all[j] && TakenAt(all[i]) <= TakenAt(all[j])
    {
      LessIrreflexive(all[i]);
      assert all[i] in all && all[j] in all;
      EarlierIdIsOlder(d, all[i], all[j]);
    }
    assert forall i :: 0 <= i < |ids| ==> ids[i] == all[i] && all[i] in all;
    forall id | id in all && id !in ids
      ensures |ids| == max && forall i :: 0 <= i < |ids| ==> TakenAt(ids[i]) <= TakenAt(id)
    {
      var k :| 0 <= k < |all| && all[k] == id;
      assert forall j :: 0 <= j < |ids| ==> all[j] in ids;
    }
  }

  // ---------------------------------------------------------------- every operation

  /** A terminal record stays as it is; any other record moves on or stays as it is. */
  ghost predicate Moves(r: Record, s: Record) {
    s == r || (!Terminal(r.status) && !s.status.Pending? && s.id == r.id && s.createdAt == r.createdAt
               && s.capability == r.capability && s.params == r.params
               && s.attempts == r.attempts + if s.status.Claimed? then 1 else 0)
  }

  ghost predicate AllMove(d: Disk, d': Disk) {
    forall id :: id in d.files ==> id in d'.files && Moves(d.files[id], d'.files[id])
  }

  lemma {:induction false} CountOf(ids: seq<Id>, id: Id)
    requires Sorted(ids)
    ensures multiset(ids)[id] == if id in ids then 1 else 0
    decreases |ids|
  {
    if ids != [] {
      SortedTail(ids);
      CountOf(ids[1..], id);
      assert ids == [ids[0]] + ids[1..];
    }
  }

  lemma {:induction false} SortedPrefix(ids: seq<Id>, max: nat)
    requires Sorted(ids)
    ensures Sorted(First(max, ids)) && forall k :: k in First(max, ids) ==> k in ids
  {
  }

  lemma {:induction false} MarkedMoves(d: Disk, ids: seq<Id>, bridge: string, now: Millis)
    requires forall k :: k in ids ==> k in d.files && !Terminal(d.files[k].status)
    ensures AllMove(d, Marked(d, ids, bridge, now)) && Active(Marked(d, ids, bridge, now)) == Active(d)
  {
  }

  lemma {:induction false} MarkedCounts(h: History, ids: seq<Id>, bridge: string, now: Millis)
    requires Inv(h) && forall k :: k in ids ==> k in h.disk.files
    requires forall k :: multiset(ids)[k] == if k in ids then 1 else 0
    ensures Inv(History(Marked(h.disk, ids, bridge, now), h.handed + multiset(ids)))
  {
    MarkedIsWellFormed(h.disk, ids, bridge, now);
    hide WellFormed;
    var d' := Marked(h.disk, ids, bridge, now);
    assert forall id :: id in d'.files ==> d'.files[id].attempts == h.disk.files[id].attempts + if id in ids then 1 else 0;
    assert forall id :: id in h.handed + multiset(ids) ==> id in h.handed || id in ids;
  }

  lemma NeverTerminal(d: Disk, ids: seq<Id>, staleMs: nat, now: Millis)
    requires forall k :: k in ids ==> Claimable(d, k, staleMs, now)
    ensures forall k :: k in ids ==> k in d.files && !Terminal(d.files[k].status)
  {
  }

  lemma {:induction false} ClaimKeeps(h: History, p: Policy, max: nat, bridge: string, now: Millis)
    requires Inv(h)
    ensures var h' := Apply(h, p, Claim(max, bridge, now));
            Inv(h') && AllMove(h.disk, h'.disk) && Active(h'.disk) == Active(h.disk)
  {
    var d := h.disk;
    var all := Claimables(d, Listing(d.files.Keys), p.claimStaleMs, now);
    var ids := First(max, all);
    ClaimEffect(d, p, max, bridge, now);
    ClaimablesIn(d, Listing(d.files.Keys), p.claimStaleMs, now);
    SortedPrefix(all, max);
    hide ClaimOn, Claimables, Sorted, Inv, AllMove, Active, Marked, Claimable;
    forall id
      ensures multiset(ids)[id] == if id in ids then 1 else 0
    {
      CountOf(ids, id);
    }
    NeverTerminal(d, ids, p.claimStaleMs, now);
    MarkedCounts(h, ids, bridge, now);
    MarkedMoves(d, ids, bridge, now);
  }

  lemma {:induction false} SweepAllEffect(d: Disk, names: seq<Id>, ttlMs: nat, now: Millis)
    requires Sorted(names) && forall k :: k in names ==> k in d.files && d.files[k].id == k
    ensures var d' := SweepAll(d, Snapshot(d, names), ttlMs, now).0;
            && d'.files.Keys == d.files.Keys
            && (forall id :: id in d.files ==>
                  d'.files[id] == if id in names && Expires(d.files[id], ttlMs, now) then ExpiredCopy(d.files[id], now) else d.files[id])
            && (forall id :: id in d'.claims <==> id in d.claims && !(id in names && Expires(d.files[id], ttlMs, now)))
            && (forall id :: id in d'.claims ==> d'.claims[id] == d.claims[id])
    decreases |names|
  {
    if names != [] {
      var id := names[0];
      var todo := Snapshot(d, names);
      SortedTail(names);
      assert todo[0] == d.files[id];
      var d1 := if Expires(d.files[id], ttlMs, now)
                then Disk(d.files[id := ExpiredCopy(d.files[id], now)], d.claims - {id}) else d;
      assert todo[1..] == Snapshot(d1, names[1..]);
      SweepAllEffect(d1, names[1..], ttlMs, now);
    }
  }

  /** Not finished, and created at least the time to live ago, or at a time that cannot be read. */
  predicate TooOld(r: Record, ttlMs: nat, now: Millis) {
    && (r.status.Pending? || r.status.Claimed?)
    && (r.createdAt == None || (r.createdAt.Some? && r.createdAt.value + ttlMs <= now))
  }

  /** `sweep` expires exactly the non-terminal commands whose age reached the TTL, and nothing else. */
  lemma {:induction false} SweepEffect(d: Disk, p: Policy, now: Millis)
    requires WellFormed(d)
    ensures var d' := SweepOn(d, p, now).0;
            && d'.files.Keys == d.files.Keys
            && (forall id :: id in d.files ==>
                  d'.files[id] == if Expires(d.files[id], p.commandTtlMs, now) then ExpiredCopy(d.files[id], now) else d.files[id])
            && (forall id :: id in d'.claims <==> id in d.claims && !Expires(d.files[id], p.commandTtlMs, now))
            && (forall id :: id in d.files ==>
                  if TooOld(d.files[id], p.commandTtlMs, now) then IsExpired(d.files[id], d'.files[id], now) else d'.files[id] == d.files[id])
            && (forall id :: id in d'.claims <==> id in d.claims && !TooOld(d.files[id], p.commandTtlMs, now))
  {
    SweepAllEffect(d, Listing(d.files.Keys), p.commandTtlMs, now);
  }

  lemma {:induction false} SweepKeeps(h: History, p: Policy, now: Millis)
    requires Inv(h)
    ensures var h' := Apply(h, p, Sweep(now));
            Inv(h') && AllMove(h.disk, h'.disk) && Active(h'.disk) <= Active(h.disk)
  {
    SweepEffect(h.disk, p, now);
    hide SweepOn, Expires, Inv, AllMove, Active;
    ExpiringKeeps(h, SweepOn(h.disk, p, now).0, p.commandTtlMs, now);
  }

  lemma {:induction false} ExpiringKeeps(h: History, d: Disk, ttlMs: nat, now: Millis)
    requires Inv(h) && d.files.Keys == h.disk.files.Keys
    requires forall id :: id in h.disk.files ==>
               d.files[id] == if Expires(h.disk.files[id], ttlMs, now) then ExpiredCopy(h.disk.files[id], now) else h.disk.files[id]
    requires forall id :: id in d.claims <==> id in h.disk.claims && !Expires(h.disk.files[id], ttlMs, now)
    ensures Inv(h.(disk := d)) && AllMove(h.disk, d) && Active(d) <= Active(h.disk)
  {
    forall id | id in h.disk.files
      ensures Moves(h.disk.files[id], d.files[id]) && d.files[id].id == id && d.files[id].attempts == h.disk.files[id].attempts
      ensures Terminal(h.disk.files[id].status) ==> Terminal(d.files[id].status)
    {
    }
  }

  lemma {:induction false} CompleteKeeps(h: History, p: Policy, id: Id, report: Report, now: Millis)
    requires Inv(h)
    ensures var h' := Apply(h, p, Complete(id, report, now));
            Inv(h') && AllMove(h.disk, h'.disk) && Active(h'.disk) <= Active(h.disk)
  {
    if SafeId(id) && id in h.disk.files && !Terminal(h.disk.files[id].status) {
      var next := CompletedCopy(h.disk.files[id], ClipReport(report, p.maxResultBytes), now);
      assert Moves(h.disk.files[id], next) && Terminal(next.status);
      hide ClipReport, CompletedCopy, SafeId;
      assert WellFormed(Disk(h.disk.files[id := next], h.disk.claims - {id}));
    }
  }

  lemma {:induction false} EnqueueKeeps(h: History, p: Policy, a: Action)
    requires Inv(h) && a.Enqueue?
    ensures var h' := Apply(h, p, a);
            && Inv(h') && AllMove(h.disk, h'.disk)
            && (h'.disk == h.disk || (|Active(h'.disk)| == |Active(h.disk)| + 1 && |Active(h.disk)| < p.maxPending))
  {
    hide Inv, AllMove, Active;
    SameMoves(h.disk);
    if a.id !in h.disk.files && a.allowed && |Active(h.disk)| < p.maxPending {
      NewRecordKeeps(h, a.id, a.capability, a.params, a.now);
    }
  }

  lemma SameMoves(d: Disk)
    ensures AllMove(d, d)
  {
  }

  lemma {:induction false} NewRecordKeeps(h: History, id: Id, capability: string, params: string, now: Millis)
    requires Inv(h) && id !in h.disk.files
    ensures var d := h.disk.(files := h.disk.files[id := NewRecord(id, capability, params, now)]);
            Inv(h.(disk := d)) && AllMove(h.disk, d) && |Active(d)| == |Active(h.disk)| + 1
  {
    var r := NewRecord(id, capability, params, now);
    hide Inv, AllMove, NewRecord;
    assert r.id == id && r.status.Pending? && r.attempts == 0 by { NewIsPending(id, capability, params, now); }
    NewActive(h.disk, id, r);
    NewMoves(h.disk, id, r);
    NewInv(h, id, r);
  }

  /** An enqueue that is allowed and finds room adds one record, unclaimed and unfinished. */
  lemma {:induction false} EnqueuedIs(h: History, p: Policy, id: Id, capability: string, params: string, now: Millis)
    requires id !in h.disk.files && |Active(h.disk)| < p.maxPending
    ensures var files := Apply(h, p, Enqueue(id, capability, params, true, now)).disk.files;
            id in files && IsNew(files[id], id, capability, params, now) && files == h.disk.files[id := files[id]]
  {
    hide Active;
  }

  lemma NewIsPending(id: Id, capability: string, params: string, now: Millis)
    ensures var r := NewRecord(id, capability, params, now); r.id == id && r.status.Pending? && r.attempts == 0
  {
  }

  lemma NewActive(d: Disk, id: Id, r: Record)
    requires id !in d.files && r.status.Pending?
    ensures |Active(d.(files := d.files[id := r]))| == |Active(d)| + 1
  {
    assert Active(d.(files := d.files[id := r])) == Active(d) + {id};
  }

  lemma NewMoves(d: Disk, id: Id, r: Record)
    requires id !in d.files
    ensures AllMove(d, d.(files := d.files[id := r]))
  {
  }

  lemma NewInv(h: History, id: Id, r: Record)
    requires Inv(h) && id !in h.disk.files && r.id == id && r.status.Pending? && r.attempts == 0
    ensures Inv(h.(disk := h.disk.(files := h.disk.files[id := r])))
  {
    assert id !in h.handed && id !in h.disk.claims;
  }

  /**
   * Every operation keeps the directory well-formed and the attempt counts equal to the hand-outs,
   * moves records only forward, and never lets more than maxPending commands be active.
   */
  lemma {:induction false} StepKeeps(h: History, p: Policy, a: Action)
    requires Inv(h)
    ensures var h' := Apply(h, p, a);
            && Inv(h') && AllMove(h.disk, h'.disk)
            && (|Active(h.disk)| <= p.maxPending ==> |Active(h'.disk)| <= p.maxPending)
  {
    var h' := Apply(h, p, a);
    match a
    case Enqueue(_, _, _, _, _) => EnqueueKeeps(h, p, a);
    case Claim(max, bridge, now) => ClaimKeeps(h, p, max, bridge, now);
    case Complete(id, report, now) =>
      CompleteKeeps(h, p, id, report, now);
      ObjectKeys.SubsetSize(Active(h'.disk), Active(h.disk));
    case Sweep(now) =>
      SweepKeeps(h, p, now);
      ObjectKeys.SubsetSize(Active(h'.disk), Active(h.disk));
  }

  lemma {:induction false} CompleteKeys(d: Disk, p: Policy, id: Id, report: Report, now: Millis)
    ensures CompleteOn(d, p, id, report, now).0.files.Keys == d.files.Keys
  {
    hide ClipReport, CompletedCopy, SafeId;
  }

  lemma {:induction false} StepFiles(h: History, p: Policy, a: Action)
    requires Inv(h)
    ensures var files := Apply(h, p, a).disk.files;
            forall id :: id in files && id !in h.disk.files ==>
              a.Enqueue? && id == a.id && files[id] == NewRecord(a.id, a.capability, a.params, a.now)
  {
    match a
    case Enqueue(_, _, _, _, _) =>
    case Claim(max, bridge, now) =>
      ClaimEffect(h.disk, p, max, bridge, now);
      hide ClaimOn;
      ClaimablesIn(h.disk, Listing(h.disk.files.Keys), p.claimStaleMs, now);
    case Complete(id, report, now) => CompleteKeys(h.disk, p, id, report, now);
    case Sweep(now) => SweepEffect(h.disk, p, now);
  }

  /** Every operation keeps the ids in step with the clock, given that enqueue takes its id from newId first. */
  lemma {:induction false} StepKeepsStamps(h: History, p: Policy, a: Action)
    requires Inv(h) && Stamped(h.disk) && (a.Enqueue? ==> WellNamed(a.id, a.now))
    ensures Stamped(Apply(h, p, a).disk)
  {
    hide Apply, Inv, WellNamed;
    StepKeeps(h, p, a);
    StepFiles(h, p, a);
    var d := Apply(h, p, a).disk;
    forall id | id in d.files
      ensures d.files[id].createdAt.Some? && WellNamed(id, d.files[id].createdAt.value)
    {
      if id in h.disk.files {
        assert Moves(h.disk.files[id], d.files[id]);
      }
    }
  }

  lemma {:induction false} RunKeepsStamps(h: History, p: Policy, run: seq<Action>)
    requires Inv(h) && Stamped(h.disk) && forall i :: 0 <= i < |run| && run[i].Enqueue? ==> WellNamed(run[i].id, run[i].now)
    ensures Stamped(Exec(h, p, run).disk)
    decreases |run|
  {
    hide Apply, Inv, Stamped, WellNamed;
    if run != [] {
      StepKeeps(h, p, run[0]);
      StepKeepsStamps(h, p, run[0]);
      RunKeepsStamps(Apply(h, p, run[0]), p, run[1..]);
    }
  }

  /** The only way from pending straight to done or failed is to complete a command nobody claimed. */
  lemma {:induction false} UnclaimedCompletion(h: History, p: Policy, a: Action, id: Id)
    requires Inv(h) && id in h.disk.files && h.disk.files[id].status.Pending?
    ensures var h' := Apply(h, p, a);
            id in h'.disk.files &&
            (h'.disk.files[id].status.Done? || h'.disk.files[id].status.Failed? <==> a.Complete? && a.id == id && SafeId(id))
  {
    hide ClaimOn, SweepOn, ClipReport, Claimables, Copies, Expires, SafeId, Active;
    match a
    case Claim(max, bridge, now) =>
      ClaimEffect(h.disk, p, max, bridge, now);
    case Sweep(now) =>
      SweepEffect(h.disk, p, now);
    case _ =>
  }

  ghost predicate Forward(d: Disk, d': Disk) {
    forall id :: id in d.files ==>
      && id in d'.files
      && (d.files[id].status.Done? || d.files[id].status.Failed? || d.files[id].status.Expired? ==> d'.files[id] == d.files[id])
      && (d'.files[id].status.Pending? ==> d'.files[id] == d.files[id])
      && d.files[id].attempts <= d'.files[id].attempts
  }

  lemma ForwardCompose(d: Disk, d1: Disk, d2: Disk)
    requires AllMove(d, d1) && Forward(d1, d2)
    ensures Forward(d, d2)
  {
  }

  /**
   * Over every run of enqueue, claim (takeover included), complete and sweep: terminal records never
   * change again, no record goes back to pending, a claim file exists exactly while its command is
   * claimed, attempts equal hand-outs, and the active commands never exceed maxPending.
   */
  lemma {:induction false} RunKeeps(h: History, p: Policy, run: seq<Action>)
    requires Inv(h) && |Active(h.disk)| <= p.maxPending
    ensures var h' := Exec(h, p, run);
            Inv(h') && Forward(h.disk, h'.disk) && |Active(h'.disk)| <= p.maxPending
    decreases |run|
  {
    if run == [] {
      hide Inv, Active;
    } else {
      StepKeeps(h, p, run[0]);
      hide Apply, Inv, Active, AllMove, Forward;
      var h1 := Apply(h, p, run[0]);
      RunKeeps(h1, p, run[1..]);
      ForwardCompose(h.disk, h1.disk, Exec(h1, p, run[1..]).disk);
    }
  }

  lemma {:induction false} LifecycleFromEmpty(p: Policy, run: seq<Action>)
    ensures var h := Exec(History(Disk(map[], map[]), multiset{}), p, run);
            && (forall id :: id in h.disk.claims <==> id in h.disk.files && h.disk.files[id].status.Claimed?)
            && (forall id :: id in h.disk.files ==> h.disk.files[id].attempts == h.handed[id])
            && |Active(h.disk)| <= p.maxPending
  {
    var empty := History(Disk(map[], map[]), multiset{});
    assert Active(empty.disk) == {};
    RunKeeps(empty, p, run);
  }
}
