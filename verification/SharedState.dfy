/** state.json, shared by a node and short-lived CLI processes (store.mjs). */
module SharedState {
  // Read marks and delivery entries, kept consistent by merging the in-memory copy with the file.

  import opened Options

  type Id = string
  type Pid = nat

  /** A delivery entry: its fields, and when it was written (None when the stored entry has no stamp). */
  datatype Entry = Entry(fields: map<string, string>, updatedAt: Option<nat>)

  datatype State = State(read: map<Id, nat>, delivery: map<Id, Entry>, other: map<string, string>)

  const EMPTY: State := State(map[], map[], map[])

  /** Order of updatedAt stamps; a missing one is older than any time. */
  function Age(e: Entry): nat {
    match e.updatedAt
    case None => 0
    case Some(t) => t + 1
  }

  function Newer(mine: Entry, theirs: Entry): Entry {
    if Age(mine) >= Age(theirs) then mine else theirs
  }

  function MergeDelivery(local: map<Id, Entry>, disk: map<Id, Entry>): map<Id, Entry> {
    map id | id in disk.Keys + local.Keys ::
      if id !in local then disk[id] else if id !in disk then local[id] else Newer(local[id], disk[id])
  }

  /** mergeState: reads are a union, deliveries keep the newest entry, the local side wins ties. */
  function Merge(local: State, disk: State): State {
    State(disk.read + local.read, MergeDelivery(local.delivery, disk.delivery), disk.other + local.other)
  }

  /** The local entries that are merged already. */
  ghost function Done(local: map<Id, Entry>, left: set<Id>): map<Id, Entry> {
    map id | id in local && id !in left :: local[id]
  }

  lemma MergeOneMore(local: map<Id, Entry>, disk: map<Id, Entry>, left: set<Id>, id: Id)
    requires id in left && id in local
    ensures var before := MergeDelivery(Done(local, left), disk);
            MergeDelivery(Done(local, left - {id}), disk) ==
              before[id := if id in before then Newer(local[id], before[id]) else local[id]]
  {
    hide Newer;
    assert Done(local, left - {id}) == Done(local, left)[id := local[id]];
  }

  lemma DoneAll(local: map<Id, Entry>, disk: map<Id, Entry>)
    ensures MergeDelivery(Done(local, local.Keys), disk) == disk && Done(local, {}) == local
  {
    assert Done(local, local.Keys) == map[];
  }

  method MergeState(local: State, disk: State) returns (out: State)
    ensures out == Merge(local, disk)
  {
    hide MergeDelivery, Done;
    var delivery := disk.delivery;
    var left := local.delivery.Keys;
    DoneAll(local.delivery, disk.delivery);
    while left != {}
      invariant left <= local.delivery.Keys
      invariant delivery == MergeDelivery(Done(local.delivery, left), disk.delivery)
      decreases left
    {
      var id :| id in left;
      var entry := local.delivery[id];
      MergeOneMore(local.delivery, disk.delivery, left, id);
      if id !in delivery {
        delivery := delivery[id := entry];
      } else {
        delivery := delivery[id := if Age(entry) >= Age(delivery[id]) then entry else delivery[id]];
      }
      left := left - {id};
    }
    out := State(disk.read + local.read, delivery, disk.other + local.other);
  }

  // ---------------------------------------------------------------- the merge

  lemma {:induction false} MergeDeliveryAssociative(a: map<Id, Entry>, b: map<Id, Entry>, c: map<Id, Entry>)
    ensures MergeDelivery(MergeDelivery(a, b), c) == MergeDelivery(a, MergeDelivery(b, c))
  {
    var left := MergeDelivery(MergeDelivery(a, b), c);
    var right := MergeDelivery(a, MergeDelivery(b, c));
    assert left.Keys == right.Keys == a.Keys + b.Keys + c.Keys;
    forall id | id in left
      ensures left[id] == right[id]
    {
    }
  }

  lemma {:induction false} MergeAssociative(a: State, b: State, c: State)
    ensures Merge(Merge(a, b), c) == Merge(a, Merge(b, c))
  {
    hide MergeDelivery;
    MergeDeliveryAssociative(a.delivery, b.delivery, c.delivery);
    OverwriteAssociative(c.read, b.read, a.read);
    OverwriteAssociative(c.other, b.other, a.other);
  }

  lemma OverwriteAssociative<K, V>(a: map<K, V>, b: map<K, V>, c: map<K, V>)
    ensures a + (b + c) == (a + b) + c
  {
  }

  /** Where both sides hold something, the memory copy wins, unless the file's delivery entry is the only stamped one or the later one. */
  lemma {:induction false} MergePicks(a: State, b: State)
    ensures var m := Merge(a, b);
            && m.read.Keys == a.read.Keys + b.read.Keys && m.other.Keys == a.other.Keys + b.other.Keys
            && m.delivery.Keys == a.delivery.Keys + b.delivery.Keys
            && (forall id :: id in m.read ==> m.read[id] == if id in a.read then a.read[id] else b.read[id])
            && (forall k :: k in m.other ==> m.other[k] == if k in a.other then a.other[k] else b.other[k])
            && (forall id :: id in m.delivery && id !in b.delivery ==> m.delivery[id] == a.delivery[id])
            && (forall id :: id in m.delivery && id !in a.delivery ==> m.delivery[id] == b.delivery[id])
            && (forall id :: id in a.delivery && id in b.delivery ==>
                  var mine, theirs := a.delivery[id].updatedAt, b.delivery[id].updatedAt;
                  var later := theirs.Some? && (mine.None? || theirs.value > mine.value);
                  m.delivery[id] == if later then b.delivery[id] else a.delivery[id])
  {
  }

  lemma {:induction false} MergeIdempotent(a: State)
    ensures Merge(a, a) == a
  {
    assert MergeDelivery(a.delivery, a.delivery) == a.delivery;
  }

  /** Where both sides hold a value and neither is newer, they must hold the same one. */
  ghost predicate NoConflict(a: State, b: State) {
    && (forall id :: id in a.read && id in b.read ==> a.read[id] == b.read[id])
    && (forall k :: k in a.other && k in b.other ==> a.other[k] == b.other[k])
    && (forall id :: id in a.delivery && id in b.delivery && Age(a.delivery[id]) == Age(b.delivery[id]) ==>
          a.delivery[id] == b.delivery[id])
  }

  /** The merge commutes exactly when there is no tie to break. */
  lemma {:induction false} MergeCommutesIff(a: State, b: State)
    ensures Merge(a, b) == Merge(b, a) <==> NoConflict(a, b)
  {
    var ab, ba := Merge(a, b), Merge(b, a);
    if NoConflict(a, b) {
      assert ab.read == ba.read && ab.other == ba.other && ab.delivery == ba.delivery;
    }
    if ab == ba {
      forall id | id in a.read && id in b.read
        ensures a.read[id] == b.read[id]
      {
        assert ab.read[id] == a.read[id] && ba.read[id] == b.read[id];
      }
      forall k | k in a.other && k in b.other
        ensures a.other[k] == b.other[k]
      {
        assert ab.other[k] == a.other[k] && ba.other[k] == b.other[k];
      }
      forall id | id in a.delivery && id in b.delivery && Age(a.delivery[id]) == Age(b.delivery[id])
        ensures a.delivery[id] == b.delivery[id]
      {
        assert ab.delivery[id] == a.delivery[id] && ba.delivery[id] == b.delivery[id];
      }
    }
  }

  /** What a state can be asked: is this message read, is its delivery entry at least this new? */
  datatype Fact = IsRead(id: Id) | IsStamped(id: Id, age: nat)

  predicate Knows(s: State, f: Fact) {
    match f
    case IsRead(id) => id in s.read
    case IsStamped(id, age) => id in s.delivery && Age(s.delivery[id]) >= age
  }

  /** A merge knows what either side knows, and nothing else. */
  lemma {:induction false} MergeKnows(a: State, b: State, f: Fact)
    ensures Knows(Merge(a, b), f) <==> Knows(a, f) || Knows(b, f)
  {
    match f
    case IsRead(id) =>
    case IsStamped(id, age) =>
  }

  /** `b` knows everything that `a` knows. */
  ghost predicate Below(a: State, b: State) {
    forall f :: Knows(a, f) ==> Knows(b, f)
  }

  lemma {:induction false} MergeIsAbove(a: State, b: State)
    ensures Below(a, Merge(a, b)) && Below(b, Merge(a, b))
  {
    forall f
      ensures Knows(Merge(a, b), f) <==> Knows(a, f) || Knows(b, f)
    {
      MergeKnows(a, b, f);
    }
  }

  /** Merging a file that the memory copy already covers changes nothing. */
  lemma {:induction false} MergeAbsorbs(a: State, b: State)
    requires Below(b, a) && b.other.Keys <= a.other.Keys
    ensures Merge(a, b) == a
  {
    assert forall id :: id in b.read ==> Knows(b, IsRead(id)) && Knows(a, IsRead(id));
    assert forall id :: id in b.delivery ==>
        Knows(b, IsStamped(id, Age(b.delivery[id]))) && Knows(a, IsStamped(id, Age(b.delivery[id])));
    assert (b.read + a.read) == a.read && b.other + a.other == a.other;
    assert MergeDelivery(a.delivery, b.delivery) == a.delivery;
  }

  // ---------------------------------------------------------------- one process

  class StateFile {
    var content: Option<State>

    constructor ()
      ensures content == None
    {
      content := None;
    }
  }

  /** A mark is written once: an id already read keeps its time. */
  function AddMarks(read: map<Id, nat>, ids: seq<Id>, now: nat): map<Id, nat> {
    (map id | id in ids && id != "" :: now) + read
  }

  lemma {:induction false} AddOneMark(read: map<Id, nat>, ids: seq<Id>, id: Id, now: nat)
    ensures var before := AddMarks(read, ids, now);
            AddMarks(read, ids + [id], now) == if id != "" && id !in before then before[id := now] else before
  {
    forall x
      ensures x in ids + [id] <==> x in ids || x == id
    {
    }
  }

  /** The ids that are marked now and were not before, each counted once. */
  function NewMarks(read: map<Id, nat>, ids: seq<Id>): set<Id> {
    set id | id in ids && id != "" && id !in read
  }

  lemma NoMarks(read: map<Id, nat>, now: nat)
    ensures AddMarks(read, [], now) == read && NewMarks(read, []) == {}
  {
  }

  lemma {:induction false} OneMoreMark(read: map<Id, nat>, ids: seq<Id>, id: Id, now: nat)
    ensures NewMarks(read, ids + [id]) ==
              NewMarks(read, ids) + if id != "" && id !in AddMarks(read, ids, now) then {id} else {}
    ensures id != "" && id !in AddMarks(read, ids, now) ==> id !in NewMarks(read, ids)
  {
    forall x
      ensures x in ids + [id] <==> x in ids || x == id
    {
    }
  }

  lemma {:induction false} MarksChangeIff(read: map<Id, nat>, ids: seq<Id>, now: nat)
    ensures AddMarks(read, ids, now) == read <==> NewMarks(read, ids) == {}
  {
    var read' := AddMarks(read, ids, now);
    if id :| id in NewMarks(read, ids) {
      assert id in read' && id !in read;
    } else {
      assert forall id :: id in ids && id != "" ==> id in read || id in NewMarks(read, ids);
    }
  }

  /** The given ids are marked as well, at this time; what was marked before keeps its time. */
  ghost predicate IsMarked(before: map<Id, nat>, after: map<Id, nat>, ids: seq<Id>, now: nat) {
    && (forall id :: id in after <==> id in before || (id in ids && id != ""))
    && (forall id :: id in after ==> after[id] == if id in before then before[id] else now)
  }

  lemma MarksMean(read: map<Id, nat>, ids: seq<Id>, now: nat)
    ensures IsMarked(read, AddMarks(read, ids, now), ids, now)
  {
  }

  function Marked(s: State, ids: seq<Id>, now: nat): State {
    s.(read := AddMarks(s.read, ids, now))
  }

  function Stamped(s: State, id: Id, info: map<string, string>, now: nat): State {
    var fields := if id in s.delivery then s.delivery[id].fields else map[];
    s.(delivery := s.delivery[id := Entry(fields + info, Some(now))])
  }

  /** The entry holds the given fields, the older ones that were not given, and the time. */
  ghost predicate IsUpdated(before: State, e: Entry, id: Id, info: map<string, string>, now: nat) {
    && e.updatedAt == Some(now)
    && (forall f :: f in info ==> f in e.fields && e.fields[f] == info[f])
    && (forall f :: f !in info ==> (f in e.fields <==> id in before.delivery && f in before.delivery[id].fields))
    && (forall f :: f in e.fields && f !in info ==> id in before.delivery && e.fields[f] == before.delivery[id].fields[f])
  }

  /** Only the entry of this id may differ. */
  ghost predicate SameBut(before: State, after: State, id: Id) {
    && after.read == before.read && after.other == before.other
    && after.delivery.Keys == before.delivery.Keys + {id}
    && forall other :: other in before.delivery && other != id ==> after.delivery[other] == before.delivery[other]
  }

  lemma {:induction false} StampMeans(s: State, id: Id, info: map<string, string>, now: nat)
    ensures IsUpdated(s, Stamped(s, id, info, now).delivery[id], id, info, now) && SameBut(s, Stamped(s, id, info, now), id)
  {
  }

  lemma {:induction false} MergeAgain(a: State, b: State)
    ensures Merge(Merge(a, b), b) == Merge(a, b)
  {
    hide Merge;
    MergeAssociative(a, b, b);
    MergeIdempotent(b);
  }

  /** Saving after a stamp changes nothing else either, because the memory copy already covers the file. */
  lemma {:induction false} StampedSave(loaded: State, disk: State, id: Id, info: map<string, string>, now: nat)
    requires Merge(loaded, disk) == loaded
    ensures var stamped := Stamped(loaded, id, info, now);
            var saved := Merge(stamped, disk);
            && SameBut(loaded, saved, id)
            && saved.delivery[id] ==
               if id in disk.delivery && disk.delivery[id].updatedAt.Some? && disk.delivery[id].updatedAt.value > now then disk.delivery[id]
               else stamped.delivery[id]
  {
    var stamped := Stamped(loaded, id, info, now);
    StampMeans(loaded, id, info, now);
    MergePicks(stamped, disk);
    MergePicks(loaded, disk);
    hide Merge, Stamped, IsUpdated;
    assert Merge(stamped, disk).read == loaded.read && Merge(stamped, disk).other == loaded.other;
  }

  class MessageStore {
    const file: StateFile
    var state: Option<State>

    constructor (file: StateFile)
      ensures this.file == file && state == None
    {
      this.file := file;
      state := None;
    }

    ghost function OnDisk(): State
      reads file
    {
      file.content.Or(EMPTY)
    }

    /** What the next load will hold: the memory copy merged with the file. */
    ghost function Loaded(): State
      reads this, file
    {
      if state.Some? then Merge(state.value, OnDisk()) else OnDisk()
    }

    method LoadState() returns (s: State)
      modifies this
      ensures s == old(Loaded()) && state == Some(s) && Below(OnDisk(), s) && OnDisk().other.Keys <= s.other.Keys
    {
      var disk := file.content.Or(EMPTY);
      if state.Some? {
        s := MergeState(state.value, disk);
      } else {
        s := disk;
      }
      state := Some(s);
    }

    method SaveState() returns (s: State)
      modifies this, file
      ensures s == old(Loaded()) && state == Some(s) && file.content == Some(s)
    {
      s := LoadState();
      file.content := Some(s);
    }

    method MarkRead(ids: seq<Id>, now: nat) returns (changed: nat)
      modifies this, file
      ensures var marked := Marked(old(Loaded()), ids, now);
              && state == Some(marked)
              && file.content == if marked != old(Loaded()) then Some(marked) else old(file.content)
      ensures changed == |NewMarks(old(Loaded()).read, ids)|
      ensures state.Some? && IsMarked(old(Loaded()).read, state.value.read, ids, now)
    {
      var loaded := LoadState();
      var read, marks := MarkEach(loaded, ids, now);
      changed := marks;
      var s := loaded.(read := read);
      state := Some(s);
      if changed > 0 {
        MergeAbsorbs(s, OnDisk());
        var saved := SaveState();
      }
    }

    static method MarkEach(loaded: State, ids: seq<Id>, now: nat) returns (read: map<Id, nat>, changed: nat)
      ensures read == AddMarks(loaded.read, ids, now)
      ensures changed > 0 <==> read != loaded.read
      ensures changed == |NewMarks(loaded.read, ids)|
      ensures IsMarked(loaded.read, read, ids, now)
    {
      MarksMean(loaded.read, ids, now);
      hide IsMarked;
      hide AddMarks, NewMarks;
      read, changed := loaded.read, 0;
      NoMarks(loaded.read, now);
      for i := 0 to |ids|
        invariant read == AddMarks(loaded.read, ids[..i], now)
        invariant changed == |NewMarks(loaded.read, ids[..i])|
      {
        var id := ids[i];
        AddOneMark(loaded.read, ids[..i], id, now);
        OneMoreMark(loaded.read, ids[..i], id, now);
        assert ids[..i + 1] == ids[..i] + [id];
        if id != "" && id !in read {
          read := read[id := now];
          changed := changed + 1;
        }
      }
      assert ids[..|ids|] == ids;
      MarksChangeIff(loaded.read, ids, now);
    }

    /** The stored entry is the new one unless the file already holds one with a later stamp. */
    method SetDelivery(id: Id, info: map<string, string>, now: nat) returns (e: Entry)
      modifies this, file
      ensures var stamped := Stamped(old(Loaded()), id, info, now);
              var disk := old(OnDisk());
              && e == stamped.delivery[id]
              && state == Some(Merge(stamped, disk)) && file.content == state
              && ((id in disk.delivery ==> Age(disk.delivery[id]) <= now + 1) ==> state == Some(stamped))
      ensures IsUpdated(old(Loaded()), e, id, info, now) && SameBut(old(Loaded()), state.value, id)
      ensures var disk := old(OnDisk()).delivery;
              var later := id in disk && disk[id].updatedAt.Some? && disk[id].updatedAt.value > now;
              state.value.delivery[id] == if later then disk[id] else e
    {
      StampMeans(Loaded(), id, info, now);
      if state.Some? { MergeAgain(state.value, OnDisk()); } else { MergeIdempotent(OnDisk()); }
      StampedSave(Loaded(), OnDisk(), id, info, now);
      hide IsUpdated, SameBut;
      var s := LoadState();
      s := Stamped(s, id, info, now);
      e := s.delivery[id];
      state := Some(s);
      if id in OnDisk().delivery ==> Age(OnDisk().delivery[id]) <= now + 1 {
        MergeAbsorbs(s, OnDisk());
      }
      var saved := SaveState();
    }
  }
}
