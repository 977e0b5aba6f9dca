/** The command queue with every operation as one step (capabilities.mjs, createCommandQueue). */
module CommandQueue {
  // There is one record file and one claim file per command.

  import opened Options
  import opened Commands
  import opened TextOrder

  /** The queue directory: record files, and claim files with their mtime. */
  datatype Disk = Disk(files: map<Id, Record>, claims: map<Id, Millis>)

  datatype Policy = Policy(maxPending: nat, claimStaleMs: nat, commandTtlMs: nat, maxResultBytes: nat)

  datatype Error = Refused | TooManyCommands | BadId | UnknownCommand

  datatype Result<T> = Ok(value: T) | Err(error: Error)

  /** Room kept for the envelope around a clipped result. */
  const TRUNCATION_ENVELOPE_BYTES: nat := 160

  function Snapshot(d: Disk, names: seq<Id>): seq<Record>
    requires forall i :: 0 <= i < |names| ==> names[i] in d.files
  {
    seq(|names|, i requires 0 <= i < |names| => d.files[names[i]])
  }

  /** Every record, oldest id first. */
  ghost function Records(d: Disk): seq<Record> {
    Snapshot(d, Listing(d.files.Keys))
  }

  ghost function Active(d: Disk): set<Id> {
    set id | id in d.files && !Terminal(d.files[id].status)
  }

  // ---------------------------------------------------------------- the operations as functions

  ghost function EnqueueOn(d: Disk, p: Policy, record: Record, allowed: bool): (Disk, Result<Record>) {
    if !allowed then (d, Err(Refused))
    else if |Active(d)| >= p.maxPending then (d, Err(TooManyCommands))
    else (d.(files := d.files[record.id := record]), Ok(record))
  }

  /** One candidate of `claim`: the claim file, the exclusive create, the re-read and the write. */
  function ClaimOne(d: Disk, r: Record, staleMs: nat, bridge: string, now: Millis): (Disk, seq<Record>) {
    var held := r.id in d.claims;
    var stale := held && StaleLease(now, d.claims[r.id], staleMs);
    if !r.status.Pending? && !r.status.Claimed? then (d, [])
    else if r.status.Claimed? && held && !stale then (d, [])
    else
      var free := if held && stale then d.claims - {r.id} else d.claims;
      if r.id in free then (d.(claims := free), [])
      else
        var locked := free[r.id := now];
        var current := if r.id in d.files then d.files[r.id] else r;
        if Terminal(current.status) then (d.(claims := locked - {r.id}), [])
        else
          var copy := ClaimedCopy(current, bridge, now);
          (Disk(d.files[current.id := copy], locked), [copy])
  }

  /** The loop of `claim` over the listed records; `max` is what may still be claimed. */
  function ClaimAll(d: Disk, todo: seq<Record>, max: nat, staleMs: nat, bridge: string, now: Millis): (Disk, seq<Record>)
    decreases |todo|
  {
    if todo == [] || max == 0 then (d, [])
    else
      var (d1, got) := ClaimOne(d, todo[0], staleMs, bridge, now);
      var (d2, rest) := ClaimAll(d1, todo[1..], if |got| <= max then max - |got| else 0, staleMs, bridge, now);
      (d2, got + rest)
  }

  lemma ClaimAllStops(d: Disk, todo: seq<Record>, max: nat, staleMs: nat, bridge: string, now: Millis)
    requires todo == [] || max == 0
    ensures ClaimAll(d, todo, max, staleMs, bridge, now) == (d, [])
  {
  }

  /** One turn of the loop, in the form the loop invariant of `Queue.Claim` needs. */
  lemma ClaimAllTurn(d: Disk, records: seq<Record>, i: nat, max: nat, staleMs: nat, bridge: string, now: Millis, claimed: seq<Record>)
    requires i < |records| && max > 0
    ensures var (d1, got) := ClaimOne(d, records[i], staleMs, bridge, now);
            var whole := ClaimAll(d, records[i..], max, staleMs, bridge, now);
            var rest := ClaimAll(d1, records[i + 1..], max - |got|, staleMs, bridge, now);
            |got| <= 1 && whole.0 == rest.0 && claimed + whole.1 == claimed + got + rest.1
  {
    var todo := records[i..];
    assert todo[0] == records[i] && todo[1..] == records[i + 1..];
    var (d1, got) := ClaimOne(d, records[i], staleMs, bridge, now);
    var rest := ClaimAll(d1, records[i + 1..], max - |got|, staleMs, bridge, now).1;
    assert claimed + (got + rest) == claimed + got + rest;
  }

  ghost function ClaimOn(d: Disk, p: Policy, max: nat, bridge: string, now: Millis): (Disk, seq<Record>) {
    ClaimAll(d, Records(d), max, p.claimStaleMs, bridge, now)
  }

  /** A result over maxResultBytes becomes a preview of its first bytes. */
  function ClipReport(report: Report, maxBytes: nat): Report {
    match report
    case Success(Json(text)) =>
      if |text| <= maxBytes then report
      else
        var budget := if maxBytes > TRUNCATION_ENVELOPE_BYTES then maxBytes - TRUNCATION_ENVELOPE_BYTES else 0;
        Success(Clipped(|text|, text[..budget]))
    case _ => report
  }

  /** What is stored for a result: itself, or its length and its first bytes with room for the envelope. */
  predicate Stores(result: Value, maxBytes: nat, stored: Value) {
    if result.Json? && |result.text| > maxBytes then
      && stored.Clipped? && stored.originalBytes == |result.text| && stored.preview <= result.text
      && (|stored.preview| + TRUNCATION_ENVELOPE_BYTES == maxBytes || (stored.preview == "" && maxBytes < TRUNCATION_ENVELOPE_BYTES))
    else stored == result
  }

  /** `s` is `r` finished by this report. */
  predicate Finishes(r: Record, s: Record, report: Report, maxBytes: nat, now: Millis) {
    match report
    case Success(v) => s.result.Some? && Stores(v, maxBytes, s.result.value) && IsDone(r, s, s.result.value, now)
    case Failure(e) => IsFailed(r, s, e, now)
  }

  lemma CompletedIsFinished(r: Record, report: Report, maxBytes: nat, now: Millis)
    ensures Finishes(r, CompletedCopy(r, ClipReport(report, maxBytes), now), report, maxBytes, now)
  {
  }

  predicate IdChar(c: char) {
    'A' <= c <= 'Z' || 'a' <= c <= 'z' || '0' <= c <= '9' || c == '_' || c == '-'
  }

  /** ID_PATTERN: anything else off the wire could name a path. */
  predicate SafeId(id: Id) {
    1 <= |id| <= 128 && forall i :: 0 <= i < |id| ==> IdChar(id[i])
  }

  function CompleteOn(d: Disk, p: Policy, id: Id, report: Report, now: Millis): (Disk, Result<Record>) {
    if !SafeId(id) then (d, Err(BadId))
    else if id !in d.files then (d, Err(UnknownCommand))
    else if Terminal(d.files[id].status) then (d, Ok(d.files[id]))
    else
      var next := CompletedCopy(d.files[id], ClipReport(report, p.maxResultBytes), now);
      (Disk(d.files[id := next], d.claims - {id}), Ok(next))
  }

  predicate Expires(r: Record, ttlMs: nat, now: Millis) {
    !Terminal(r.status) && (r.createdAt.Some? ==> now - r.createdAt.value >= ttlMs)
  }

  function ExpiredCopy(r: Record, now: Millis): Record {
    r.(status := Expired, error := Some(Json("expired")), finishedAt := Some(now))
  }

  /** The loop of `sweep`, and how many records it expired. */
  function SweepAll(d: Disk, todo: seq<Record>, ttlMs: nat, now: Millis): (Disk, nat)
    decreases |todo|
  {
    if todo == [] then (d, 0)
    else if Expires(todo[0], ttlMs, now) then
      var swept := Disk(d.files[todo[0].id := ExpiredCopy(todo[0], now)], d.claims - {todo[0].id});
      var (d', n) := SweepAll(swept, todo[1..], ttlMs, now);
      (d', n + 1)
    else SweepAll(d, todo[1..], ttlMs, now)
  }

  ghost function SweepOn(d: Disk, p: Policy, now: Millis): (Disk, nat) {
    SweepAll(d, Records(d), p.commandTtlMs, now)
  }

  // ---------------------------------------------------------------- the queue

  class Queue {
    var files: map<Id, Record>
    var claims: map<Id, Millis>
    const policy: Policy

    constructor (policy: Policy)
      ensures this.policy == policy && State() == Disk(map[], map[])
    {
      this.policy := policy;
      files, claims := map[], map[];
    }

    ghost function State(): Disk
      reads this
    {
      Disk(files, claims)
    }

    method ListRecords() returns (records: seq<Record>)
      ensures records == Records(State())
    {
      var names := SortNames(files.Keys);
      ListingIsUnique(names, Listing(files.Keys), files.Keys);
      records := [];
      for i := 0 to |names|
        invariant records == Snapshot(State(), names[..i])
      {
        records := records + [files[names[i]]];
      }
      assert names[..|names|] == names;
    }

    method Enqueue(id: Id, capability: string, params: string, now: Millis, allowed: bool) returns (r: Result<Record>)
      modifies this`files
      ensures (State(), r) == EnqueueOn(old(State()), policy, NewRecord(id, capability, params, now), allowed)
      ensures r == Err(Refused) <==> !allowed
      ensures r == Err(TooManyCommands) <==> allowed && |old(Active(State()))| >= policy.maxPending
      ensures r.Ok? ==> IsNew(r.value, id, capability, params, now) && files == old(files)[id := r.value]
      ensures r.Err? ==> files == old(files)
    {
      var record := NewRecord(id, capability, params, now);
      if !allowed {
        return Err(Refused);
      }
      var active := 0;
      var left := files.Keys;
      assert Active(State()) * {} == {};
      while left != {}
        invariant left <= files.Keys
        invariant active == |Active(State()) - left|
        decreases left
      {
        var id :| id in left;
        if !Terminal(files[id].status) {
          assert Active(State()) - (left - {id}) == (Active(State()) - left) + {id};
          active := active + 1;
        } else {
          assert Active(State()) - (left - {id}) == Active(State()) - left;
        }
        left := left - {id};
      }
      assert Active(State()) - {} == Active(State());
      if active >= policy.maxPending {
        return Err(TooManyCommands);
      }
      files := files[record.id := record];
      r := Ok(record);
    }

    method Claim(limit: nat, bridge: string, now: Millis) returns (claimed: seq<Record>)
      modifies this`files, this`claims
      ensures (State(), claimed) == ClaimOn(old(State()), policy, limit, bridge, now)
    {
      hide ClaimAll, ClaimOne;
      claimed := [];
      var records := ListRecords();
      var i := 0;
      ghost var whole := ClaimAll(State(), records, limit, policy.claimStaleMs, bridge, now);
      assert records[0..] == records && [] + whole.1 == whole.1;
      while i < |records| && |claimed| < limit
        invariant 0 <= i <= |records| && |claimed| <= limit
        invariant var rest := ClaimAll(State(), records[i..], limit - |claimed|, policy.claimStaleMs, bridge, now);
                  whole == (rest.0, claimed + rest.1)
        decreases |records| - i
      {
        ClaimAllTurn(State(), records, i, limit - |claimed|, policy.claimStaleMs, bridge, now, claimed);
        var got := ClaimCandidate(records[i], bridge, now);
        claimed := claimed + got;
        i := i + 1;
      }
      ClaimAllStops(State(), records[i..], limit - |claimed|, policy.claimStaleMs, bridge, now);
      assert claimed + [] == claimed;
    }

    /** One pass of the loop in `claim`: a lease that is not stale keeps everybody off. */
    method ClaimCandidate(record: Record, bridge: string, now: Millis) returns (got: seq<Record>)
      modifies this`files, this`claims
      ensures (State(), got) == ClaimOne(old(State()), record, policy.claimStaleMs, bridge, now)
      ensures old(record.id in claims && !StaleLease(now, claims[record.id], policy.claimStaleMs)) ==> got == [] && State() == old(State())
      ensures forall r :: r in got ==> r.id in files && files[r.id] == r && record.id in claims && claims[record.id] == now
      ensures forall r :: r in got ==>
                IsClaim(if record.id in old(files) then old(files)[record.id] else record, r, bridge, now)
    {
      got := [];
      var pending := record.status.Pending?;
      var leased := record.status.Claimed?;
      if !pending && !leased {
        return;
      }
      var held := record.id in claims;
      var stale := held && StaleLease(now, claims[record.id], policy.claimStaleMs);
      if leased && held && !stale {
        return;
      }
      if held && stale {
        claims := claims - {record.id};
      }
      if record.id in claims {
        return;
      }
      claims := claims[record.id := now];
      var current := if record.id in files then files[record.id] else record;
      if Terminal(current.status) {
        claims := claims - {record.id};
        return;
      }
      var updated := ClaimedCopy(current, bridge, now);
      files := files[current.id := updated];
      got := [updated];
    }

    method Complete(id: Id, report: Report, now: Millis) returns (r: Result<Record>)
      modifies this`files, this`claims
      ensures (State(), r) == CompleteOn(old(State()), policy, id, report, now)
      ensures r == Err(BadId) <==> !SafeId(id)
      ensures r == Err(UnknownCommand) <==> SafeId(id) && id !in old(files)
      ensures r.Ok? ==> id in files && files[id] == r.value && Terminal(r.value.status)
      ensures r.Ok? && !Terminal(old(files)[id].status) ==>
                && Finishes(old(files)[id], r.value, report, policy.maxResultBytes, now)
                && files == old(files)[id := r.value] && claims == old(claims) - {id}
      ensures r.Err? || old(id in files && Terminal(files[id].status)) ==> State() == old(State())
    {
      if !SafeId(id) {
        return Err(BadId);
      }
      if id !in files {
        return Err(UnknownCommand);
      }
      var record := files[id];
      if Terminal(record.status) {
        return Ok(record);
      }
      CompletedIsFinished(record, report, policy.maxResultBytes, now);
      var next := CompletedCopy(record, ClipReport(report, policy.maxResultBytes), now);
      files := files[id := next];
      claims := claims - {id};
      r := Ok(next);
    }

    method Sweep(now: Millis) returns (expired: nat)
      modifies this`files, this`claims
      ensures (State(), expired) == SweepOn(old(State()), policy, now)
    {
      expired := 0;
      var records := ListRecords();
      ghost var whole := SweepAll(State(), records, policy.commandTtlMs, now);
      assert records[0..] == records;
      for i := 0 to |records|
        invariant var rest := SweepAll(State(), records[i..], policy.commandTtlMs, now);
                  whole == (rest.0, expired + rest.1)
      {
        var record := records[i];
        assert records[i..][0] == record && records[i..][1..] == records[i + 1..];
        if Expires(record, policy.commandTtlMs, now) {
          files := files[record.id := ExpiredCopy(record, now)];
          claims := claims - {record.id};
          expired := expired + 1;
        }
      }
    }
  }
}
