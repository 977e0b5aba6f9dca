/** The command record stored in one JSON file per command, and the statuses it goes through. */
module Commands {
  import opened Options

  type Id = string
  type Millis = nat

  datatype Status = Pending | Claimed | Done | Failed | Expired

  predicate Terminal(status: Status) {
    status.Done? || status.Failed? || status.Expired?
  }

  /** A JSON value as text; a result over the byte limit is replaced by a preview envelope. */
  datatype Value = Json(text: string) | Clipped(originalBytes: nat, preview: string)

  /** `createdAt` is None when the stored text does not parse as a date. */
  datatype Record = Record(
    id: Id,
    capability: string,
    params: string,
    createdAt: Option<Millis>,
    status: Status,
    claimedBy: Option<string>,
    claimedAt: Option<Millis>,
    attempts: nat,
    finishedAt: Option<Millis>,
    result: Option<Value>,
    error: Option<Value>)

  /** What a bridge reports about one command. */
  datatype Report = Success(result: Value) | Failure(error: Value)

  function NewRecord(id: Id, capability: string, params: string, now: Millis): Record {
    Record(id, capability, params, Some(now), Pending, None, None, 0, None, None, None)
  }

  /** What `claim` writes over the record it re-read while holding the claim file. */
  function ClaimedCopy(current: Record, bridge: string, now: Millis): Record {
    current.(status := Claimed, claimedBy := Some(bridge), claimedAt := Some(now), attempts := current.attempts + 1)
  }

  /** What `complete` writes over the non-terminal record it read. */
  function CompletedCopy(current: Record, report: Report, now: Millis): Record {
    match report
    case Success(v) => current.(status := Done, finishedAt := Some(now), result := Some(v), error := None)
    case Failure(e) => current.(status := Failed, finishedAt := Some(now), result := None, error := Some(e))
  }

  // ---------------------------------------------------------------- records, field by field

  predicate SameCommand(r: Record, s: Record) {
    s.id == r.id && s.capability == r.capability && s.params == r.params && s.createdAt == r.createdAt
  }

  predicate SameClaim(r: Record, s: Record) {
    s.claimedBy == r.claimedBy && s.claimedAt == r.claimedAt && s.attempts == r.attempts
  }

  predicate SameOutcome(r: Record, s: Record) {
    s.finishedAt == r.finishedAt && s.result == r.result && s.error == r.error
  }

  /** A command nobody has claimed or finished. */
  predicate IsNew(r: Record, id: Id, capability: string, params: string, now: Millis) {
    && r.id == id && r.capability == capability && r.params == params && r.createdAt == Some(now) && r.status.Pending?
    && r.claimedBy == None && r.claimedAt == None && r.attempts == 0
    && r.finishedAt == None && r.result == None && r.error == None
  }

  /** `s` is `r` handed out once more, to this bridge and at this time. */
  predicate IsClaim(r: Record, s: Record, bridge: string, now: Millis) {
    && SameCommand(r, s) && SameOutcome(r, s)
    && s.status.Claimed? && s.claimedBy == Some(bridge) && s.claimedAt == Some(now) && s.attempts == r.attempts + 1
  }

  /** `s` is `r` finished with this result, or with this error. */
  predicate IsDone(r: Record, s: Record, result: Value, now: Millis) {
    SameCommand(r, s) && SameClaim(r, s) && s.status.Done? && s.finishedAt == Some(now) && s.result == Some(result) && s.error == None
  }

  predicate IsFailed(r: Record, s: Record, error: Value, now: Millis) {
    SameCommand(r, s) && SameClaim(r, s) && s.status.Failed? && s.finishedAt == Some(now) && s.result == None && s.error == Some(error)
  }

  /** `s` is `r` given up. */
  predicate IsExpired(r: Record, s: Record, now: Millis) {
    SameCommand(r, s) && SameClaim(r, s) && s.status.Expired? && s.finishedAt == Some(now) && s.result == r.result && s.error == Some(Json("expired"))
  }

  /** True when a lease taken at `mtime` counts as abandoned at `now`; 0 switches takeover off. */
  predicate StaleLease(now: Millis, mtime: Millis, staleMs: nat) {
    staleMs > 0 && now - mtime >= staleMs
  }
}
