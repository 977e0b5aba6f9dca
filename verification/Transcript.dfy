/** Transcript windows and the transcript cache (dshview.mjs). */
module Transcript {
  // Decoding and rendering a log is the parameter `view`; the cache is a Map, so its keys keep their insertion
  // order.

  import opened Options
  import opened ObjectKeys

  type Message = string
  type Bytes = seq<int>

  /** A log file as one read sees it; times are in whole milliseconds. */
  datatype File = File(content: Bytes, mtimeMs: int)

  datatype Rendered = Rendered(messages: seq<Message>, corruptFrames: nat)

  /** decodeFrames and renderMessages, on what is read of a file and a length limit per message. */
  type View = (Bytes, nat) -> Rendered

  const CACHE_MS: int := 5000
  const CACHE_SIZE: nat := 8

  // ---------------------------------------------------------------- the window

  /** The page size: the limit, clamped, and the configured maximum. */
  function PageSize(limit: int, maxMessages: nat): nat {
    var wanted := if limit < 0 then 0 else if limit > 100000 then 100000 else limit;
    if wanted < maxMessages then wanted else maxMessages
  }

  function Window(total: nat, size: nat, offset: int, tail: bool): (r: (nat, nat))
    ensures r.0 <= r.1 <= total
  {
    var skip := if offset < 0 then 0 else offset;
    if tail then
      var end := if total < skip then 0 else total - skip;
      (if end < size then 0 else end - size, end)
    else
      var start := if skip < total then skip else total;
      (start, if start + size < total then start + size else total)
  }

  datatype Page = Page(total: nat, messages: seq<Message>, truncated: bool, corruptFrames: nat)

  function PageOf(shots: seq<Message>, corruptFrames: nat, byteLimited: bool, size: nat, offset: int, tail: bool): Page {
    var (start, end) := Window(|shots|, size, offset, tail);
    Page(|shots|, shots[start..end], start > 0 || end < |shots| || byteLimited, corruptFrames)
  }

  function Forward(shots: seq<Message>, size: nat, pages: nat): seq<Message> {
    if pages == 0 then []
    else Forward(shots, size, pages - 1) + PageOf(shots, 0, false, size, (pages - 1) * size, false).messages
  }

  /** Pages from the end, each new one in front. */
  function Backward(shots: seq<Message>, size: nat, pages: nat): seq<Message> {
    if pages == 0 then []
    else PageOf(shots, 0, false, size, (pages - 1) * size, true).messages + Backward(shots, size, pages - 1)
  }

  function Least(a: nat, b: nat): nat {
    if a < b then a else b
  }

  /** Consecutive pages from the top are the transcript, as far as they reach. */
  lemma {:induction false} ForwardPagesJoin(shots: seq<Message>, size: nat, pages: nat)
    ensures Forward(shots, size, pages) == shots[..Least(pages * size, |shots|)]
  {
    if pages > 0 {
      ForwardPagesJoin(shots, size, pages - 1);
      assert pages * size == (pages - 1) * size + size;
    }
  }

  /** Consecutive pages from the end are the end of the transcript, as far as they reach. */
  lemma {:induction false} BackwardPagesJoin(shots: seq<Message>, size: nat, pages: nat)
    ensures Backward(shots, size, pages) == shots[|shots| - Least(pages * size, |shots|)..]
  {
    if pages > 0 {
      BackwardPagesJoin(shots, size, pages - 1);
      assert pages * size == (pages - 1) * size + size;
    }
  }

  /** Either way, enough pages of at least one message give the whole transcript. */
  lemma {:induction false} PagesGiveEverything(shots: seq<Message>, limit: int, maxMessages: nat, pages: nat)
    requires limit >= 1 && maxMessages >= 1 && pages >= |shots|
    ensures Forward(shots, PageSize(limit, maxMessages), pages) == shots == Backward(shots, PageSize(limit, maxMessages), pages)
  {
    var size := PageSize(limit, maxMessages);
    ForwardPagesJoin(shots, size, pages);
    BackwardPagesJoin(shots, size, pages);
    Enough(pages, size);
  }

  lemma Enough(pages: nat, size: nat)
    requires size >= 1
    ensures pages * size >= pages
  {
  }

  /** An answer that is not flagged as truncated is the whole transcript of the whole file, and only then. */
  lemma {:induction false} TruncatedIff(shots: seq<Message>, corruptFrames: nat, byteLimited: bool, size: nat, offset: int, tail: bool)
    ensures var page := PageOf(shots, corruptFrames, byteLimited, size, offset, tail);
            !page.truncated <==> page.messages == shots && !byteLimited
  {
    var (start, end) := Window(|shots|, size, offset, tail);
    assert |shots[start..end]| == end - start;
    assert start == 0 && end == |shots| ==> shots[start..end] == shots;
  }

  // ---------------------------------------------------------------- the cache

  datatype Hit = Hit(at: int, size: nat, mtimeMs: int, chars: nat, messages: seq<Message>, corruptFrames: nat, byteLimited: bool)

  type Cache = Table<Hit>

  predicate Usable(hit: Hit, chars: nat, file: File, now: int) {
    now - hit.at < CACHE_MS && hit.chars == chars && hit.size == |file.content| && hit.mtimeMs == file.mtimeMs
  }

  /** readTranscriptCache: a stale entry is removed. */
  function ReadCache(cache: Cache, key: Key, chars: nat, file: File, now: int): (Cache, Option<Hit>) {
    if key !in cache.slots then (cache, None)
    else if Usable(cache.slots[key], chars, file, now) then (cache, Some(cache.slots[key]))
    else (Remove(cache, {key}), None)
  }

  /** writeTranscriptCache: a full cache loses the entry that was inserted first. */
  function WriteCache(cache: Cache, key: Key, hit: Hit): Cache {
    Put(MakeRoom(cache), key, hit)
  }

  function MakeRoom(cache: Cache): Cache {
    if |cache.slots| >= CACHE_SIZE && cache.keys != [] then Remove(cache, {cache.keys[0]}) else cache
  }

  /** What a read of the file gives: at most `readCap` bytes of it, decoded and rendered. */
  function Fresh(view: View, file: File, chars: nat, readCap: nat, now: int): Hit {
    var read := if |file.content| <= readCap then file.content else file.content[..readCap];
    var rendered := view(read, chars);
    Hit(now, |file.content|, file.mtimeMs, chars, rendered.messages, rendered.corruptFrames, |file.content| > |read|)
  }

  function Answer(hit: Hit, size: nat, offset: int, tail: bool): Page {
    PageOf(hit.messages, hit.corruptFrames, hit.byteLimited, size, offset, tail)
  }

  // ---------------------------------------------------------------- what an answer shows

  /** The page is a stretch of this transcript, as long as the request, the limits and what is left of it allow. */
  ghost predicate IsPage(page: Page, shots: seq<Message>, limit: int, maxMessages: nat, offset: int, tail: bool) {
    var n, m, skip := |shots|, |page.messages|, if offset < 0 then 0 else offset;
    var left := if skip < n then n - skip else 0;
    && page.total == n
    && m <= left && m <= maxMessages && m <= 100000 && m <= (if limit < 0 then 0 else limit)
    && (m == left || m == maxMessages || m == 100000 || m >= limit)
    && (m > 0 ==> page.messages == if tail then shots[left - m..left] else shots[skip..skip + m])
  }

  /** The page shows what decoding and rendering make of the file, or of its first `readCap` bytes, and says when that is not all. */
  ghost predicate ShowsFile(page: Page, view: View, file: File, chars: nat, readCap: nat, limit: int, maxMessages: nat, offset: int, tail: bool) {
    var rendered := view(if |file.content| <= readCap then file.content else file.content[..readCap], chars);
    && IsPage(page, rendered.messages, limit, maxMessages, offset, tail)
    && page.corruptFrames == rendered.corruptFrames
    && (page.truncated <==> |page.messages| < |rendered.messages| || |file.content| > readCap)
  }

  lemma {:induction false} AnswerIsPage(hit: Hit, limit: int, maxMessages: nat, offset: int, tail: bool)
    ensures var page := Answer(hit, PageSize(limit, maxMessages), offset, tail);
            && IsPage(page, hit.messages, limit, maxMessages, offset, tail)
            && page.corruptFrames == hit.corruptFrames
            && (page.truncated <==> |page.messages| < |hit.messages| || hit.byteLimited)
  {
  }

  lemma {:induction false} FreshShowsFile(view: View, file: File, chars: nat, readCap: nat, now: int, limit: int, maxMessages: nat, offset: int, tail: bool)
    ensures ShowsFile(Answer(Fresh(view, file, chars, readCap, now), PageSize(limit, maxMessages), offset, tail),
                      view, file, chars, readCap, limit, maxMessages, offset, tail)
  {
    AnswerIsPage(Fresh(view, file, chars, readCap, now), limit, maxMessages, offset, tail);
    hide Answer, IsPage;
  }

  /** A file within the read cap, asked for from its start or its end and within the limits, comes whole and unflagged, and only then. */
  lemma {:induction false} WholeIff(page: Page, view: View, file: File, chars: nat, readCap: nat, limit: int, maxMessages: nat, offset: int, tail: bool)
    requires ShowsFile(page, view, file, chars, readCap, limit, maxMessages, offset, tail)
    ensures !page.truncated <==>
              && |file.content| <= readCap
              && (page.total > 0 ==> offset <= 0 && limit >= page.total && maxMessages >= page.total && 100000 >= page.total)
    ensures !page.truncated ==> page.messages == view(file.content, chars).messages
  {
  }

  class Viewer {
    const view: View
    const readCap: nat
    const maxMessages: nat
    var keys: seq<Key>
    var slots: map<Key, Hit>

    constructor (view: View, readCap: nat, maxMessages: nat)
      ensures this.view == view && this.readCap == readCap && this.maxMessages == maxMessages && Transcripts() == Table([], map[])
    {
      this.view := view;
      this.readCap := readCap;
      this.maxMessages := maxMessages;
      keys, slots := [], map[];
    }

    function Transcripts(): Cache
      reads this
    {
      Table(keys, slots)
    }

    method Lookup(key: Key, chars: nat, file: File, now: int) returns (hit: Option<Hit>)
      modifies this`keys, this`slots
      ensures (Transcripts(), hit) == ReadCache(old(Transcripts()), key, chars, file, now)
      ensures if hit.Some? then Transcripts() == old(Transcripts()) && key in slots && slots[key] == hit.value && Usable(hit.value, chars, file, now)
              else key !in slots
      ensures hit.Some? <==>
                && key in old(slots)
                && now - old(slots)[key].at < 5000 && old(slots)[key].chars == chars
                && old(slots)[key].size == |file.content| && old(slots)[key].mtimeMs == file.mtimeMs
    {
      if key !in slots {
        return None;
      }
      var h := slots[key];
      if now - h.at >= CACHE_MS || h.chars != chars || h.size != |file.content| || h.mtimeMs != file.mtimeMs {
        keys := ObjectKeys.Pick(keys, slots.Keys - {key});
        slots := slots - {key};
        return None;
      }
      hit := Some(h);
    }

    method Store(key: Key, hit: Hit)
      modifies this`keys, this`slots
      ensures Transcripts() == WriteCache(old(Transcripts()), key, hit)
      ensures key in slots && slots[key] == hit && forall k :: k in slots && k != key ==> k in old(slots) && slots[k] == old(slots)[k]
      ensures old(Transcripts().Valid() && |keys| <= CACHE_SIZE) ==> Transcripts().Valid() && |keys| <= CACHE_SIZE
    {
      if Transcripts().Valid() && |keys| <= CACHE_SIZE {
        WriteIsBounded(Transcripts(), key, hit);
      }
      if |slots| >= CACHE_SIZE && keys != [] {
        var oldest := keys[0];
        keys := ObjectKeys.Pick(keys, slots.Keys - {oldest});
        slots := slots - {oldest};
      }
      keys := if key in slots then keys else keys + [key];
      slots := slots[key := hit];
    }

    /** transcript: the cache if it is usable, else a read, which is cached. The file is what both stat and read see. */
    method Transcript(key: Key, file: File, chars: nat, limit: int, offset: int, tail: bool, now: int) returns (page: Page)
      modifies this`keys, this`slots
      ensures var found := ReadCache(old(Transcripts()), key, chars, file, now);
              if found.1.Some? then
                page == Answer(found.1.value, PageSize(limit, maxMessages), offset, tail) && Transcripts() == found.0
              else
                page == Answer(Fresh(view, file, chars, readCap, now), PageSize(limit, maxMessages), offset, tail) &&
                Transcripts() == WriteCache(found.0, key, Fresh(view, file, chars, readCap, now))
      ensures if key in old(slots) && Usable(old(slots)[key], chars, file, now) then
                var hit := old(slots)[key];
                && IsPage(page, hit.messages, limit, maxMessages, offset, tail)
                && page.corruptFrames == hit.corruptFrames && (page.truncated <==> |page.messages| < |hit.messages| || hit.byteLimited)
              else
                ShowsFile(page, view, file, chars, readCap, limit, maxMessages, offset, tail)
      ensures !(key in old(slots) && Usable(old(slots)[key], chars, file, now)) ==>
                forall later: int :: later < now + 5000 ==> ReadCache(Transcripts(), key, chars, file, later).1.Some?
    {
      hide WriteCache, PageOf, IsPage, ShowsFile;
      var cached := Lookup(key, chars, file, now);
      var hit: Hit;
      if cached.Some? {
        hit := cached.value;
      } else {
        hit := Fresh(view, file, chars, readCap, now);
        Store(key, hit);
        FreshShowsFile(view, file, chars, readCap, now, limit, maxMessages, offset, tail);
      }
      AnswerIsPage(hit, limit, maxMessages, offset, tail);
      page := Answer(hit, PageSize(limit, maxMessages), offset, tail);
    }
  }

  // ---------------------------------------------------------------- runs

  /** A file version as it was read: the key, the file, and when. */
  datatype Seen = Seen(key: Key, file: File, at: int)

  datatype Sys = Sys(files: map<Key, File>, cache: Cache, clock: int, loads: set<Seen>)

  /** Requests may interleave: a request looks in the cache, and one that found nothing reads and stores later. */
  datatype Action =
    | Wait(ms: nat)
    | WriteFile(key: Key, file: File)
    | Look(key: Key, chars: nat)
    | Load(key: Key, chars: nat)
    | Refresh

  function Apply(sys: Sys, a: Action, view: View, readCap: nat): Sys {
    match a
    case Wait(ms) => sys.(clock := sys.clock + ms)
    case WriteFile(key, file) => sys.(files := sys.files[key := file])
    case Look(key, chars) =>
      if key !in sys.files then sys else sys.(cache := ReadCache(sys.cache, key, chars, sys.files[key], sys.clock).0)
    case Load(key, chars) =>
      if key !in sys.files then sys
      else
        sys.(cache := WriteCache(sys.cache, key, Fresh(view, sys.files[key], chars, readCap, sys.clock)),
             loads := sys.loads + {Seen(key, sys.files[key], sys.clock)})
    case Refresh => sys.(cache := Table([], map[]))
  }

  function Exec(sys: Sys, run: seq<Action>, view: View, readCap: nat): Sys
    decreases |run|
  {
    if run == [] then sys else Exec(Apply(sys, run[0], view, readCap), run[1..], view, readCap)
  }

  function Start(files: map<Key, File>): Sys {
    Sys(files, Table([], map[]), 0, {})
  }

  /** Every cache entry is what some read of this key gave at the time. */
  ghost predicate Inv(sys: Sys, view: View, readCap: nat) {
    && sys.cache.Valid() && |sys.cache.keys| <= CACHE_SIZE
    && (forall k :: k in sys.cache.slots ==> FromRead(sys, k, sys.cache.slots[k], view, readCap))
  }

  ghost predicate FromRead(sys: Sys, key: Key, hit: Hit, view: View, readCap: nat) {
    exists s :: s in sys.loads && s.key == key && s.at <= sys.clock && hit == Fresh(view, s.file, hit.chars, readCap, s.at)
  }

  lemma {:induction false} RoomIsMade(cache: Cache)
    requires cache.Valid() && |cache.keys| <= CACHE_SIZE
    ensures var room := MakeRoom(cache);
            && room.Valid() && |room.keys| < CACHE_SIZE
            && forall k :: k in room.slots ==> k in cache.slots && room.slots[k] == cache.slots[k]
  {
    KeyCount(cache);
    if |cache.slots| >= CACHE_SIZE && cache.keys != [] {
      var oldest := cache.keys[0];
      RemoveIsValid(cache, {oldest});
      PickOneLess(cache.keys, cache.slots.Keys, oldest);
    }
  }

  lemma {:induction false} WriteIsBounded(cache: Cache, key: Key, hit: Hit)
    requires cache.Valid() && |cache.keys| <= CACHE_SIZE
    ensures WriteCache(cache, key, hit).Valid() && |WriteCache(cache, key, hit).keys| <= CACHE_SIZE
    ensures forall k :: k in WriteCache(cache, key, hit).slots && k != key ==> k in cache.slots && WriteCache(cache, key, hit).slots[k] == cache.slots[k]
    ensures key in WriteCache(cache, key, hit).slots && WriteCache(cache, key, hit).slots[key] == hit
  {
    hide MakeRoom, Table.Valid;
    RoomIsMade(cache);
    PutIsValid(MakeRoom(cache), key, hit);
  }

  lemma {:induction false} StepKeeps(sys: Sys, a: Action, view: View, readCap: nat)
    requires Inv(sys, view, readCap)
    ensures Inv(Apply(sys, a, view, readCap), view, readCap) && sys.loads <= Apply(sys, a, view, readCap).loads
  {
    hide Fresh, Table.Valid, WriteCache, Pick;
    var sys' := Apply(sys, a, view, readCap);
    match a
    case Wait(ms) =>
      forall k | k in sys'.cache.slots
        ensures FromRead(sys', k, sys'.cache.slots[k], view, readCap)
      {
        ReadStays(sys, sys', k, sys.cache.slots[k], view, readCap);
      }
    case WriteFile(key, file) =>
      forall k | k in sys'.cache.slots
        ensures FromRead(sys', k, sys'.cache.slots[k], view, readCap)
      {
        ReadStays(sys, sys', k, sys.cache.slots[k], view, readCap);
      }
    case Look(key, chars) => LookKeeps(sys, key, chars, view, readCap);
    case Load(key, chars) => LoadKeeps(sys, key, chars, view, readCap);
    case Refresh => assert sys'.cache.Valid() by { EmptyIsValid(); }
  }

  lemma EmptyIsValid()
    ensures var none: Cache := Table([], map[]); none.Valid()
  {
  }

  lemma {:induction false} ReadStays(sys: Sys, sys': Sys, key: Key, hit: Hit, view: View, readCap: nat)
    requires FromRead(sys, key, hit, view, readCap) && sys.loads <= sys'.loads && sys.clock <= sys'.clock
    ensures FromRead(sys', key, hit, view, readCap)
  {
    hide Fresh;
    var s :| s in sys.loads && s.key == key && s.at <= sys.clock && hit == Fresh(view, s.file, hit.chars, readCap, s.at);
    assert s in sys'.loads && s.at <= sys'.clock;
  }

  lemma {:induction false} LookKeeps(sys: Sys, key: Key, chars: nat, view: View, readCap: nat)
    requires Inv(sys, view, readCap)
    ensures Inv(Apply(sys, Look(key, chars), view, readCap), view, readCap)
  {
    hide Fresh;
    var sys' := Apply(sys, Look(key, chars), view, readCap);
    RemoveIsValid(sys.cache, {key});
    if key in sys.cache.slots { PickOneLess(sys.cache.keys, sys.cache.slots.Keys, key); }
    hide Table.Valid, Pick;
    forall k | k in sys'.cache.slots
      ensures FromRead(sys', k, sys'.cache.slots[k], view, readCap)
    {
      ReadStays(sys, sys', k, sys.cache.slots[k], view, readCap);
    }
  }

  lemma {:induction false} LoadKeeps(sys: Sys, key: Key, chars: nat, view: View, readCap: nat)
    requires Inv(sys, view, readCap)
    ensures Inv(Apply(sys, Load(key, chars), view, readCap), view, readCap)
  {
    hide Fresh, WriteCache, Table.Valid;
    if key in sys.files {
      var sys' := Apply(sys, Load(key, chars), view, readCap);
      var hit := Fresh(view, sys.files[key], chars, readCap, sys.clock);
      WriteIsBounded(sys.cache, key, hit);
      forall k | k in sys'.cache.slots
        ensures FromRead(sys', k, sys'.cache.slots[k], view, readCap)
      {
        if k == key {
          FreshKeepsChars(view, sys.files[key], chars, readCap, sys.clock);
          assert Seen(key, sys.files[key], sys.clock) in sys'.loads;
        } else {
          ReadStays(sys, sys', k, sys.cache.slots[k], view, readCap);
        }
      }
    }
  }

  lemma FreshKeepsChars(view: View, file: File, chars: nat, readCap: nat, now: int)
    ensures Fresh(view, file, chars, readCap, now).chars == chars
  {
  }

  lemma {:induction false} RunKeeps(sys: Sys, run: seq<Action>, view: View, readCap: nat)
    requires Inv(sys, view, readCap)
    ensures Inv(Exec(sys, run, view, readCap), view, readCap)
    decreases |run|
  {
    hide Inv, Apply;
    if run != [] {
      StepKeeps(sys, run[0], view, readCap);
      RunKeeps(Apply(sys, run[0], view, readCap), run[1..], view, readCap);
    }
  }

  /** In every run the cache holds at most eight transcripts. */
  lemma {:induction false} CacheIsBounded(files: map<Key, File>, run: seq<Action>, view: View, readCap: nat)
    ensures |Exec(Start(files), run, view, readCap).cache.slots| <= CACHE_SIZE
  {
    RunKeeps(Start(files), run, view, readCap);
    KeyCount(Exec(Start(files), run, view, readCap).cache);
  }

  /** What a request finds in the cache is what a read of this key gave less than five seconds ago, of a file of this size and time. */
  ghost predicate RecentRead(sys: Sys, key: Key, hit: Hit, s: Seen, view: View, readCap: nat) {
    && s in sys.loads && s.key == key && key in sys.files && 0 <= sys.clock - s.at < CACHE_MS
    && |s.file.content| == |sys.files[key].content| && s.file.mtimeMs == sys.files[key].mtimeMs
    && hit == Fresh(view, s.file, hit.chars, readCap, s.at)
  }

  lemma {:induction false} CachedIsRecent(files: map<Key, File>, run: seq<Action>, view: View, readCap: nat, key: Key, chars: nat) returns (s: Seen)
    requires var sys := Exec(Start(files), run, view, readCap);
             key in sys.files && ReadCache(sys.cache, key, chars, sys.files[key], sys.clock).1.Some?
    ensures var sys := Exec(Start(files), run, view, readCap);
            var hit := ReadCache(sys.cache, key, chars, sys.files[key], sys.clock).1.value;
            RecentRead(sys, key, hit, s, view, readCap) && hit.chars == chars
  {
    RunKeeps(Start(files), run, view, readCap);
    var sys := Exec(Start(files), run, view, readCap);
    var hit := ReadCache(sys.cache, key, chars, sys.files[key], sys.clock).1.value;
    assert FromRead(sys, key, hit, view, readCap);
    s :| s in sys.loads && s.key == key && s.at <= sys.clock && hit == Fresh(view, s.file, hit.chars, readCap, s.at);
  }

  /** Size and time tell a file's versions apart. */
  ghost predicate Identified(sys: Sys) {
    forall s :: s in sys.loads && s.key in sys.files ==>
      (|s.file.content| == |sys.files[s.key].content| && s.file.mtimeMs == sys.files[s.key].mtimeMs ==> s.file == sys.files[s.key])
  }

  /** Then a cached answer shows the file as it is now, exactly as a fresh read would. */
  lemma {:induction false} CachedIsFresh(files: map<Key, File>, run: seq<Action>, view: View, readCap: nat, key: Key, chars: nat, limit: int, maxMessages: nat, offset: int, tail: bool)
    requires var sys := Exec(Start(files), run, view, readCap);
             Identified(sys) && key in sys.files && ReadCache(sys.cache, key, chars, sys.files[key], sys.clock).1.Some?
    ensures var sys := Exec(Start(files), run, view, readCap);
            var hit := ReadCache(sys.cache, key, chars, sys.files[key], sys.clock).1.value;
            var page := Answer(hit, PageSize(limit, maxMessages), offset, tail);
            && page == Answer(Fresh(view, sys.files[key], chars, readCap, sys.clock), PageSize(limit, maxMessages), offset, tail)
            && ShowsFile(page, view, sys.files[key], chars, readCap, limit, maxMessages, offset, tail)
  {
    hide ShowsFile, IsPage;
    var s := CachedIsRecent(files, run, view, readCap, key, chars);
    var sys := Exec(Start(files), run, view, readCap);
    assert s.file == sys.files[key];
    FreshShowsFile(view, sys.files[key], chars, readCap, sys.clock, limit, maxMessages, offset, tail);
  }
}
