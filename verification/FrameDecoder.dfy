/** Decoding a session log of zstd frames concatenated end to end (dshview.mjs). */
module FrameDecoder {
  // Frames are split by searching for the frame magic, and retrying over later boundaries when the
  // magic also occurs inside a frame. The zstd library is the parameter `dec`; a log is described by
  // where its frames lie.

  import opened Options

  type Byte = b: int | 0 <= b < 256
  type Bytes = seq<Byte>
  type Event = string
  type Decompress = Bytes -> Option<Bytes>
  type ParseLines = Bytes -> seq<Event>

  /** Magic_Number of section 3.1.1 of RFC 8878, little-endian. */
  const MAGIC: Bytes := [0x28, 0xb5, 0x2f, 0xfd]
  const FRAME_BOUNDARY_RETRIES: nat := 4

  predicate MagicAt(data: Bytes, at: nat) {
    at + 4 <= |data| && data[at] == MAGIC[0] && data[at + 1] == MAGIC[1] && data[at + 2] == MAGIC[2] && data[at + 3] == MAGIC[3]
  }

  // ---------------------------------------------------------------- frame starts

  /** Every position from `from` on where the magic occurs, in increasing order. */
  function Starts(data: Bytes, from: nat): seq<nat>
    decreases |data| - from
  {
    if from + 4 > |data| then []
    else if MagicAt(data, from) then [from] + Starts(data, from + 1)
    else Starts(data, from + 1)
  }

  lemma {:induction false} StartsComplete(data: Bytes, from: nat, p: nat)
    requires from <= p && MagicAt(data, p)
    ensures p in Starts(data, from)
    decreases |data| - from
  {
    if p != from {
      StartsComplete(data, from + 1, p);
    }
  }

  /** Buffer.indexOf: the first occurrence of the magic at or after `from`, or -1. */
  function IndexOfMagic(data: Bytes, from: nat): (r: int)
    ensures r >= 0 ==> from <= r && MagicAt(data, r) && forall p :: from <= p < r ==> !MagicAt(data, p)
    ensures r >= -1
    ensures r < 0 ==> forall p :: from <= p ==> !MagicAt(data, p)
    decreases |data| - from
  {
    if from + 4 > |data| then -1
    else if MagicAt(data, from) then from
    else IndexOfMagic(data, from + 1)
  }

  lemma {:induction false} StartsByIndexOf(data: Bytes, from: nat)
    ensures var at := IndexOfMagic(data, from);
            at < |data| && Starts(data, from) == if at < 0 then [] else [at as nat] + Starts(data, at + 1)
    decreases |data| - from
  {
    if from + 4 <= |data| && !MagicAt(data, from) {
      StartsByIndexOf(data, from + 1);
    }
  }

  method FrameStarts(buf: Bytes) returns (out: seq<nat>)
    ensures out == Starts(buf, 0)
  {
    hide Starts, MagicAt, IndexOfMagic;
    out := [];
    var at := IndexOfMagic(buf, 0);
    StartsByIndexOf(buf, 0);
    while at >= 0
      invariant -1 <= at < |buf| || at == -1
      invariant at < 0 ==> out == Starts(buf, 0)
      invariant at >= 0 ==> out + [at] + Starts(buf, at + 1) == Starts(buf, 0)
      decreases if at < 0 then 0 else |buf| - at
    {
      out := out + [at];
      StartsByIndexOf(buf, at + 1);
      at := IndexOfMagic(buf, at + 1);
      assert at < 0 ==> Starts(buf, 0) == out + [];
    }
  }

  // ---------------------------------------------------------------- the decoder

  /** Buffer.subarray: out-of-range bounds are clamped. */
  function Sub(data: Bytes, from: nat, to: nat): Bytes {
    var end := if to < |data| then to else |data|;
    if from < end then data[from..end] else []
  }

  /** Decompressed text of the first end boundary that works, and how many boundaries it took. */
  function Attempt(dec: Decompress, data: Bytes, at: nat, ends: seq<nat>, tries: nat): (r: Option<(Bytes, nat)>)
    ensures r.Some? ==> 1 <= r.value.1 <= |ends| && r.value.1 <= tries
  {
    if tries == 0 || |ends| == 0 then None
    else
      match dec(Sub(data, at, ends[0]))
      case Some(text) => Some((text, 1))
      case None =>
        match Attempt(dec, data, at, ends[1..], tries - 1)
        case Some(found) => Some((found.0, found.1 + 1))
        case None => None
  }

  datatype Texts = Texts(texts: seq<Bytes>, corrupt: nat)

  function Ends(data: Bytes, starts: seq<nat>): seq<nat>
    requires starts != []
  {
    starts[1..] + [|data|]
  }

  /** The loop of decodeFrames over the starts it has not visited; `budget` is maxFrames minus frames. */
  function Decode(dec: Decompress, data: Bytes, starts: seq<nat>, limited: bool, budget: Option<nat>): (r: Texts)
    decreases |starts|
  {
    if starts == [] || budget == Some(0) then Texts([], 0)
    else
      match Attempt(dec, data, starts[0], Ends(data, starts), FRAME_BOUNDARY_RETRIES)
      case None =>
        var rest := Decode(dec, data, starts[1..], limited, budget);
        rest.(corrupt := rest.corrupt + if |starts| == 1 && limited then 0 else 1)
      case Some(found) =>
        var rest := Decode(dec, data, starts[found.1..], limited, Less(budget));
        rest.(texts := [found.0] + rest.texts)
  }

  function Less(budget: Option<nat>): Option<nat>
    requires budget != Some(0)
  {
    match budget
    case None => None
    case Some(n) => Some(n - 1)
  }

  function Remaining(maxFrames: Option<nat>, frames: nat): Option<nat>
    requires maxFrames.Some? ==> frames <= maxFrames.value
  {
    match maxFrames
    case None => None
    case Some(n) => Some(n - frames)
  }

  function EventsOf(parse: ParseLines, texts: seq<Bytes>): seq<Event> {
    if texts == [] then [] else parse(texts[0]) + EventsOf(parse, texts[1..])
  }

  /** The part of the buffer that is read: at most maxBytes from its head. */
  function Window(buf: Bytes, maxBytes: nat): Bytes {
    if |buf| > maxBytes then buf[..maxBytes] else buf
  }

  function DecodeBuffer(dec: Decompress, buf: Bytes, maxBytes: nat, maxFrames: Option<nat>): Texts {
    var data := Window(buf, maxBytes);
    Decode(dec, data, Starts(data, 0), |buf| > maxBytes, maxFrames)
  }

  lemma {:induction false} EventsOfAppend(parse: ParseLines, a: seq<Bytes>, b: seq<Bytes>)
    ensures EventsOf(parse, a + b) == EventsOf(parse, a) + EventsOf(parse, b)
    decreases |a|
  {
    if a == [] {
      assert a + b == b;
    } else {
      assert (a + b)[0] == a[0] && (a + b)[1..] == a[1..] + b;
      EventsOfAppend(parse, a[1..], b);
    }
  }

  lemma DecodeOnce(dec: Decompress, data: Bytes, starts: seq<nat>, limited: bool, budget: Option<nat>)
    requires starts != [] && budget != Some(0)
    ensures Decode(dec, data, starts, limited, budget) ==
              match Attempt(dec, data, starts[0], Ends(data, starts), FRAME_BOUNDARY_RETRIES)
              case None =>
                var later := Decode(dec, data, starts[1..], limited, budget);
                Texts(later.texts, later.corrupt + if |starts| == 1 && limited then 0 else 1)
              case Some(found) =>
                var later := Decode(dec, data, starts[found.1..], limited, Less(budget));
                Texts([found.0] + later.texts, later.corrupt)
  {
    hide Attempt, Ends, Less;
  }

  lemma {:induction false} DecodeUnfold(dec: Decompress, data: Bytes, starts: seq<nat>, i: nat, limited: bool, budget: Option<nat>)
    requires i < |starts| && budget != Some(0)
    ensures var rest := Decode(dec, data, starts[i..], limited, budget);
            match Attempt(dec, data, starts[i], Ends(data, starts[i..]), FRAME_BOUNDARY_RETRIES)
            case None =>
              var later := Decode(dec, data, starts[i + 1..], limited, budget);
              rest == Texts(later.texts, later.corrupt + if i == |starts| - 1 && limited then 0 else 1)
            case Some(found) =>
              var later := Decode(dec, data, starts[i + found.1..], limited, Less(budget));
              rest == Texts([found.0] + later.texts, later.corrupt)
  {
    hide Decode, Attempt, Less;
    var suffix := starts[i..];
    DecodeOnce(dec, data, suffix, limited, budget);
    assert suffix[1..] == starts[i + 1..];
    match Attempt(dec, data, starts[i], Ends(data, suffix), FRAME_BOUNDARY_RETRIES)
    case None =>
    case Some(found) => assert suffix[found.1..] == starts[i + found.1..];
  }

  lemma DecodeStops(dec: Decompress, data: Bytes, starts: seq<nat>, limited: bool, budget: Option<nat>)
    requires (starts == [] || budget == Some(0))
    ensures Decode(dec, data, starts, limited, budget) == Texts([], 0)
  {
  }

  /** None of the first `n` boundaries decodes. */
  ghost predicate Failed(dec: Decompress, data: Bytes, at: nat, ends: seq<nat>, n: nat)
    requires n <= |ends|
  {
    forall k :: 0 <= k < n ==> dec(Sub(data, at, ends[k])).None?
  }

  /** The retry loop of decodeFrames: one start against the boundaries after it, at most 4 of them. */
  method TryBoundaries(dec: Decompress, data: Bytes, at: nat, ends: seq<nat>) returns (decoded: Option<Bytes>, advance: nat)
    requires |ends| > 0
    ensures 1 <= advance <= |ends|
    ensures Attempt(dec, data, at, ends, FRAME_BOUNDARY_RETRIES) == if decoded.None? then None else Some((decoded.value, advance))
  {
    decoded, advance := None, 1;
    var attempt := 0;
    while attempt < FRAME_BOUNDARY_RETRIES && attempt < |ends|
      invariant 0 <= attempt <= FRAME_BOUNDARY_RETRIES && attempt <= |ends| && decoded.None? && advance == 1
      invariant Failed(dec, data, at, ends, attempt)
    {
      decoded := dec(Sub(data, at, ends[attempt]));
      if decoded.Some? {
        advance := attempt + 1;
        AttemptFinds(dec, data, at, ends, FRAME_BOUNDARY_RETRIES, attempt);
        return;
      }
      attempt := attempt + 1;
    }
    AttemptFails(dec, data, at, ends, FRAME_BOUNDARY_RETRIES, attempt);
  }

  lemma {:induction false} FailedTail(dec: Decompress, data: Bytes, at: nat, ends: seq<nat>, n: nat)
    requires 0 < n <= |ends| && Failed(dec, data, at, ends, n)
    ensures dec(Sub(data, at, ends[0])).None? && Failed(dec, data, at, ends[1..], n - 1)
  {
    forall k | 0 <= k < n - 1
      ensures dec(Sub(data, at, ends[1..][k])).None?
    {
      assert ends[1..][k] == ends[k + 1];
    }
  }

  lemma {:induction false} AttemptFinds(dec: Decompress, data: Bytes, at: nat, ends: seq<nat>, tries: nat, k: nat)
    requires k < tries && k < |ends| && Failed(dec, data, at, ends, k)
    requires dec(Sub(data, at, ends[k])).Some?
    ensures Attempt(dec, data, at, ends, tries) == Some((dec(Sub(data, at, ends[k])).value, k + 1))
    decreases k
  {
    if k > 0 {
      FailedTail(dec, data, at, ends, k);
      assert ends[1..][k - 1] == ends[k];
      AttemptFinds(dec, data, at, ends[1..], tries - 1, k - 1);
    }
  }

  lemma {:induction false} AttemptFails(dec: Decompress, data: Bytes, at: nat, ends: seq<nat>, tries: nat, n: nat)
    requires n <= |ends| && Failed(dec, data, at, ends, n)
    requires n == |ends| || n >= tries
    ensures Attempt(dec, data, at, ends, tries).None?
    decreases tries
  {
    if tries > 0 && |ends| > 0 {
      FailedTail(dec, data, at, ends, n);
      AttemptFails(dec, data, at, ends[1..], tries - 1, n - 1);
    }
  }

  method DecodeFrames(dec: Decompress, parse: ParseLines, buf: Bytes, maxBytes: nat, maxFrames: Option<nat>)
    returns (events: seq<Event>, frames: nat, corruptFrames: nat, truncatedBytes: bool)
    ensures var r := DecodeBuffer(dec, buf, maxBytes, maxFrames);
            events == EventsOf(parse, r.texts) && frames == |r.texts| && corruptFrames == r.corrupt
    ensures truncatedBytes == (|buf| > maxBytes)
  {
    truncatedBytes := |buf| > maxBytes;
    var data := Window(buf, maxBytes);
    var starts := FrameStarts(data);
    events, frames, corruptFrames := DecodeStarts(dec, parse, data, starts, truncatedBytes, maxFrames);
  }

  /** The main loop of decodeFrames, once the frame starts are known. */
  method DecodeStarts(dec: Decompress, parse: ParseLines, data: Bytes, starts: seq<nat>, limited: bool, maxFrames: Option<nat>)
    returns (events: seq<Event>, frames: nat, corruptFrames: nat)
    ensures var r := Decode(dec, data, starts, limited, maxFrames);
            events == EventsOf(parse, r.texts) && frames == |r.texts| && corruptFrames == r.corrupt
  {
    hide Decode, Attempt, EventsOf, Progress;
    events, frames, corruptFrames := [], 0, 0;
    ghost var texts: seq<Bytes> := [];
    ghost var whole := Decode(dec, data, starts, limited, maxFrames);
    assert starts[0..] == starts;
    NoTexts(parse);
    ProgressBegins(whole);
    var i := 0;
    while i < |starts| && (maxFrames.None? || frames < maxFrames.value)
      invariant 0 <= i <= |starts| && frames == |texts|
      invariant maxFrames.Some? ==> frames <= maxFrames.value
      invariant events == EventsOf(parse, texts)
      invariant Progress(whole, texts, corruptFrames, Decode(dec, data, starts[i..], limited, Remaining(maxFrames, frames)))
      decreases |starts| - i
    {
      var lastFrame := i == |starts| - 1;
      DecodeUnfold(dec, data, starts, i, limited, Remaining(maxFrames, frames));
      var decoded, advance := TryBoundaries(dec, data, starts[i], Ends(data, starts[i..]));
      if decoded.None? {
        ProgressSkips(whole, texts, corruptFrames, Decode(dec, data, starts[i + 1..], limited, Remaining(maxFrames, frames)),
                      if lastFrame && limited then 0 else 1);
        if !(lastFrame && limited) {
          corruptFrames := corruptFrames + 1;
        }
        i := i + 1;
      } else {
        assert Less(Remaining(maxFrames, frames)) == Remaining(maxFrames, frames + 1);
        ProgressByOne(parse, whole, texts, corruptFrames, decoded.value,
                      Decode(dec, data, starts[i + advance..], limited, Less(Remaining(maxFrames, frames))));
        frames := frames + 1;
        texts := texts + [decoded.value];
        events := events + parse(decoded.value);
        i := i + advance;
      }
    }
    DecodeStops(dec, data, starts[i..], limited, Remaining(maxFrames, frames));
    ProgressEnds(whole, texts, corruptFrames);
  }

  lemma NoTexts(parse: ParseLines)
    ensures EventsOf(parse, []) == []
  {
  }

  /** `whole` is what was decoded so far followed by what the rest of the loop will decode. */
  ghost predicate Progress(whole: Texts, texts: seq<Bytes>, corrupt: nat, rest: Texts) {
    whole.texts == texts + rest.texts && whole.corrupt == corrupt + rest.corrupt
  }

  lemma ProgressBegins(whole: Texts)
    ensures Progress(whole, [], 0, whole)
  {
    assert [] + whole.texts == whole.texts;
  }

  lemma ProgressSkips(whole: Texts, texts: seq<Bytes>, corrupt: nat, later: Texts, more: nat)
    requires Progress(whole, texts, corrupt, Texts(later.texts, later.corrupt + more))
    ensures Progress(whole, texts, corrupt + more, later)
  {
  }

  lemma ProgressEnds(whole: Texts, texts: seq<Bytes>, corrupt: nat)
    requires Progress(whole, texts, corrupt, Texts([], 0))
    ensures whole == Texts(texts, corrupt)
  {
    assert texts + [] == texts;
  }

  lemma ProgressByOne(parse: ParseLines, whole: Texts, texts: seq<Bytes>, corrupt: nat, text: Bytes, later: Texts)
    requires Progress(whole, texts, corrupt, Texts([text] + later.texts, later.corrupt))
    ensures Progress(whole, texts + [text], corrupt, later)
    ensures EventsOf(parse, texts + [text]) == EventsOf(parse, texts) + parse(text)
  {
    EventsOfAppend(parse, texts, [text]);
    assert EventsOf(parse, [text]) == parse(text);
    assert texts + ([text] + later.texts) == texts + [text] + later.texts;
  }

  // ---------------------------------------------------------------- well-formed logs

  /** A frame lies at [start, end) of the log and decodes to `text`. */
  datatype Frame = Frame(start: nat, end: nat, text: Bytes)

  /** The whole frame decodes, with any trailing bytes; no strict prefix of it does. */
  ghost predicate FrameAt(dec: Decompress, data: Bytes, f: Frame) {
    && f.start + 4 <= f.end <= |data|
    && MagicAt(data, f.start)
    && (forall q: nat :: f.end <= q ==> dec(Sub(data, f.start, q)) == Some(f.text))
    && (forall q: nat :: q < f.end ==> dec(Sub(data, f.start, q)) == None)
  }

  /** No magic begins inside the frame and ends behind it. */
  ghost predicate Snug(data: Bytes, f: Frame) {
    forall p :: f.start < p < f.end && MagicAt(data, p) ==> p + 4 <= f.end
  }

  ghost predicate AllSnug(data: Bytes, frames: seq<Frame>) {
    forall i :: 0 <= i < |frames| ==> Snug(data, frames[i])
  }

  ghost predicate StartsFrame(frames: seq<Frame>, p: nat) {
    exists i :: 0 <= i < |frames| && frames[i].start == p
  }

  /** `frames` are the good frames of the log, in order; nothing decodes from any other magic. */
  ghost predicate LogOf(dec: Decompress, data: Bytes, frames: seq<Frame>) {
    && (forall i :: 0 <= i < |frames| ==> FrameAt(dec, data, frames[i]))
    && (forall i, j :: 0 <= i < j < |frames| ==> frames[i].end <= frames[j].start)
    && (forall p: nat, q: nat :: MagicAt(data, p) && !StartsFrame(frames, p) ==> dec(Sub(data, p, q)) == None)
  }

  /** How often the magic occurs in [lo, hi). */
  ghost function Magics(data: Bytes, lo: nat, hi: nat): nat
    decreases hi - lo
  {
    if lo >= hi then 0 else (if MagicAt(data, lo) then 1 else 0) + Magics(data, lo + 1, hi)
  }

  /** A frame the retry bound can see the end of: at most 3 inner occurrences of the magic. */
  ghost predicate Readable(data: Bytes, f: Frame) {
    Magics(data, f.start + 1, f.end) < FRAME_BOUNDARY_RETRIES
  }

  ghost function ReadableTexts(data: Bytes, frames: seq<Frame>): seq<Bytes> {
    if frames == [] then []
    else (if Readable(data, frames[0]) then [frames[0].text] else []) + ReadableTexts(data, frames[1..])
  }

  /** At most `budget` elements from the front. */
  ghost function Upto(budget: Option<nat>, texts: seq<Bytes>): seq<Bytes> {
    match budget
    case None => texts
    case Some(n) => if n < |texts| then texts[..n] else texts
  }

  // ---------------------------------------------------------------- decoding a well-formed log

  /** Boundaries below `hi` skipped by a search that resumes at `hi`. */
  lemma {:induction false} StartsSkip(data: Bytes, lo: nat, hi: nat)
    requires lo <= hi
    ensures Magics(data, lo, hi) <= |Starts(data, lo)|
    ensures Starts(data, lo)[Magics(data, lo, hi)..] == Starts(data, hi)
    decreases hi - lo
  {
    if lo < hi {
      StartsSkip(data, lo + 1, hi);
      if lo + 4 > |data| {
        NoStartsNearEnd(data, hi);
        NoStartsNearEnd(data, lo + 1);
      } else if MagicAt(data, lo) {
        assert Starts(data, lo)[1..] == Starts(data, lo + 1);
        assert Starts(data, lo)[1 + Magics(data, lo + 1, hi)..] == Starts(data, lo + 1)[Magics(data, lo + 1, hi)..];
      }
    }
  }

  lemma {:induction false} NoStartsNearEnd(data: Bytes, from: nat)
    requires from + 3 >= |data|
    ensures Starts(data, from) == []
  {
  }

  /** Starting from a good frame, the first boundary at or behind its end decodes it. */
  lemma {:induction false} AttemptFrame(dec: Decompress, data: Bytes, f: Frame, lo: nat, tries: nat)
    requires FrameAt(dec, data, f) && f.start < lo <= f.end
    ensures Attempt(dec, data, f.start, Starts(data, lo) + [|data|], tries)
            == if Magics(data, lo, f.end) < tries then Some((f.text, Magics(data, lo, f.end) + 1)) else None
    decreases f.end - lo
  {
    var ends := Starts(data, lo) + [|data|];
    if tries == 0 {
    } else if lo < f.end && MagicAt(data, lo) {
      assert ends[0] == lo;
      assert ends[1..] == Starts(data, lo + 1) + [|data|];
      AttemptFrame(dec, data, f, lo + 1, tries - 1);
    } else if lo < f.end {
      if lo + 4 <= |data| {
        AttemptFrame(dec, data, f, lo + 1, tries);
      } else {
        NoMagicNearEnd(data, lo, f.end);
        assert ends == [|data|];
      }
    } else {
      AttemptAtEnd(dec, data, f, tries);
    }
  }

  lemma {:induction false} AttemptAtEnd(dec: Decompress, data: Bytes, f: Frame, tries: nat)
    requires FrameAt(dec, data, f) && tries > 0
    ensures Attempt(dec, data, f.start, Starts(data, f.end) + [|data|], tries) == Some((f.text, 1))
  {
    hide Sub;
    StartsAtLeast(data, f.end);
    assert (Starts(data, f.end) + [|data|])[0] >= f.end;
  }

  lemma {:induction false} NoMagicNearEnd(data: Bytes, lo: nat, hi: nat)
    requires lo + 3 >= |data|
    ensures Magics(data, lo, hi) == 0
    decreases hi - lo
  {
    if lo < hi {
      NoMagicNearEnd(data, lo + 1, hi);
    }
  }

  lemma {:induction false} StartsAtLeast(data: Bytes, from: nat)
    ensures forall i :: 0 <= i < |Starts(data, from)| ==> from <= Starts(data, from)[i] && MagicAt(data, Starts(data, from)[i])
    decreases |data| - from
  {
    if from + 4 <= |data| {
      StartsAtLeast(data, from + 1);
    }
  }

  lemma {:induction false} UptoCons(budget: Option<nat>, text: Bytes, texts: seq<Bytes>)
    requires budget != Some(0)
    ensures Upto(budget, [text] + texts) == [text] + Upto(Less(budget), texts)
  {
  }

  /** No attempt from a position that starts no good frame succeeds. */
  lemma {:induction false} AttemptElsewhere(dec: Decompress, data: Bytes, frames: seq<Frame>, p: nat, ends: seq<nat>)
    requires LogOf(dec, data, frames) && MagicAt(data, p) && !StartsFrame(frames, p)
    ensures Attempt(dec, data, p, ends, FRAME_BOUNDARY_RETRIES) == None
  {
    AttemptFails(dec, data, p, ends, FRAME_BOUNDARY_RETRIES, |ends|);
  }

  /** Frames `k` on are those that start at `from` or later. */
  ghost predicate From(frames: seq<Frame>, k: nat, from: nat) {
    k <= |frames| && forall i :: 0 <= i < |frames| ==> (i < k <==> frames[i].start < from)
  }

  lemma {:induction false} NextStart(dec: Decompress, data: Bytes, frames: seq<Frame>, k: nat, from: nat)
    requires LogOf(dec, data, frames) && From(frames, k, from)
    ensures k <= |frames|
    ensures var starts := Starts(data, from);
            && (starts == [] ==> k == |frames|)
            && (starts != [] ==>
                  var p := starts[0];
                  from <= p < |data| && MagicAt(data, p) && starts == [p] + Starts(data, p + 1)
                  && (k < |frames| && frames[k].start == p ==>
                        FrameAt(dec, data, frames[k]) && From(frames, k + 1, p + 1) && From(frames, k + 1, frames[k].end))
                  && (!(k < |frames| && frames[k].start == p) ==> From(frames, k, p + 1) && !StartsFrame(frames, p)))
  {
    StartsByIndexOf(data, from);
    if k < |frames| {
      assert FrameAt(dec, data, frames[k]);
      StartsComplete(data, from, frames[k].start);
    }
    if Starts(data, from) != [] {
      var p := Starts(data, from)[0];
      assert forall q :: from <= q < p ==> !MagicAt(data, q);
      forall i | k < i < |frames|
        ensures frames[i].start > p && frames[k].end <= frames[i].start
      {
        assert FrameAt(dec, data, frames[k]) && frames[k].end <= frames[i].start;
      }
    }
  }

  /** What the loop does at the start of a good frame. */
  lemma {:induction false} FrameStep(dec: Decompress, data: Bytes, f: Frame, limited: bool, budget: Option<nat>)
    requires FrameAt(dec, data, f) && budget != Some(0)
    ensures var here := Decode(dec, data, [f.start] + Starts(data, f.start + 1), limited, budget).texts;
            here == if Readable(data, f) then [f.text] + Decode(dec, data, Starts(data, f.end), limited, Less(budget)).texts
                    else Decode(dec, data, Starts(data, f.start + 1), limited, budget).texts
  {
    hide Starts, Attempt, Magics, Decode, MagicAt, Ends;
    var later := Starts(data, f.start + 1);
    var starts := [f.start] + later;
    var m := Magics(data, f.start + 1, f.end);
    AttemptFrame(dec, data, f, f.start + 1, FRAME_BOUNDARY_RETRIES);
    StartsSkip(data, f.start + 1, f.end);
    EndsAre(data, f.start, later);
    DecodeUnfold(dec, data, starts, 0, limited, budget);
    assert starts[0..] == starts && starts[1..] == later;
    assert starts[m + 1..] == later[m..];
  }

  lemma EndsAre(data: Bytes, start: nat, later: seq<nat>)
    ensures Ends(data, [start] + later) == later + [|data|]
  {
  }

  /** What the loop does at a magic that starts no good frame. */
  lemma {:induction false} ElsewhereStep(dec: Decompress, data: Bytes, frames: seq<Frame>, p: nat, limited: bool, budget: Option<nat>)
    requires LogOf(dec, data, frames) && MagicAt(data, p) && !StartsFrame(frames, p) && budget != Some(0)
    ensures Decode(dec, data, [p] + Starts(data, p + 1), limited, budget).texts
            == Decode(dec, data, Starts(data, p + 1), limited, budget).texts
  {
    var starts := [p] + Starts(data, p + 1);
    AttemptElsewhere(dec, data, frames, p, Ends(data, starts));
    DecodeUnfold(dec, data, starts, 0, limited, budget);
    assert starts[0..] == starts && starts[1..] == Starts(data, p + 1);
  }

  lemma ReadableCons(data: Bytes, frames: seq<Frame>, k: nat)
    requires k <= |frames|
    ensures ReadableTexts(data, frames[k..])
            == if k == |frames| then []
               else if Readable(data, frames[k]) then [frames[k].text] + ReadableTexts(data, frames[k + 1..])
               else ReadableTexts(data, frames[k + 1..])
  {
    assert k < |frames| ==> frames[k..][0] == frames[k] && frames[k..][1..] == frames[k + 1..];
  }

  /** The loop over the starts at or behind `from` returns the readable frames that lie there. */
  lemma {:induction false} DecodeFrom(dec: Decompress, data: Bytes, frames: seq<Frame>, k: nat, from: nat, limited: bool, budget: Option<nat>)
    requires LogOf(dec, data, frames) && From(frames, k, from)
    ensures k <= |frames|
    ensures Decode(dec, data, Starts(data, from), limited, budget).texts == Upto(budget, ReadableTexts(data, frames[k..]))
    decreases |data| - from
  {
    hide Decode, Starts, Magics, LogOf, From, ReadableTexts;
    var starts := Starts(data, from);
    NextStart(dec, data, frames, k, from);
    ReadableCons(data, frames, k);
    if starts == [] || budget == Some(0) {
      DecodeStops(dec, data, starts, limited, budget);
    } else {
      var p := starts[0];
      if k < |frames| && frames[k].start == p {
        var f := frames[k];
        FrameStep(dec, data, f, limited, budget);
        if Readable(data, f) {
          DecodeFrom(dec, data, frames, k + 1, f.end, limited, Less(budget));
          UptoCons(budget, f.text, ReadableTexts(data, frames[k + 1..]));
        } else {
          DecodeFrom(dec, data, frames, k + 1, p + 1, limited, budget);
        }
      } else {
        ElsewhereStep(dec, data, frames, p, limited, budget);
        DecodeFrom(dec, data, frames, k, p + 1, limited, budget);
      }
    }
  }

  /**
   * Decoding a well-formed log yields exactly the texts of its readable frames, in order, up to the
   * frame limit. A good frame with more than 3 inner magics is lost, and only such a frame.
   */
  lemma {:induction false} DecodeLog(dec: Decompress, data: Bytes, frames: seq<Frame>, limited: bool, maxFrames: Option<nat>)
    requires LogOf(dec, data, frames)
    ensures Decode(dec, data, Starts(data, 0), limited, maxFrames).texts == Upto(maxFrames, ReadableTexts(data, frames))
  {
    DecodeFrom(dec, data, frames, 0, 0, limited, maxFrames);
    assert frames[0..] == frames;
  }

  // ---------------------------------------------------------------- what is counted as corrupt

  /** The byte lies in a good frame that is read. */
  ghost predicate Covered(data: Bytes, frames: seq<Frame>, p: nat) {
    exists i :: 0 <= i < |frames| && frames[i].start <= p < frames[i].end && Readable(data, frames[i])
  }

  ghost predicate IsLast(data: Bytes, p: nat) {
    forall q :: p < q ==> !MagicAt(data, q)
  }

  /** The magics from a position on that belong to no frame that is read; when the read was cut, the last magic is forgiven. */
  ghost function Lost(data: Bytes, frames: seq<Frame>, from: nat, limited: bool): set<nat> {
    set p: nat | from <= p < |data| && MagicAt(data, p) && !Covered(data, frames, p) && !(limited && IsLast(data, p))
  }

  /** The readable frames among the first `k` are behind. */
  ghost predicate Behind(data: Bytes, frames: seq<Frame>, k: nat, from: nat) {
    forall i :: 0 <= i < k && i < |frames| && Readable(data, frames[i]) ==> frames[i].end <= from
  }

  lemma {:induction false} LastIff(data: Bytes, p: nat)
    requires p < |data|
    ensures Starts(data, p + 1) == [] <==> IsLast(data, p)
  {
    StartsAtLeast(data, p + 1);
    if Starts(data, p + 1) == [] {
      forall q | p < q
        ensures !MagicAt(data, q)
      {
        if MagicAt(data, q) { StartsComplete(data, p + 1, q); }
      }
    } else {
      assert MagicAt(data, Starts(data, p + 1)[0]);
    }
  }

  /** Past a good frame that is read, nothing is lost up to its end. */
  lemma {:induction false} NothingLost(data: Bytes, frames: seq<Frame>, k: nat, from: nat, limited: bool)
    requires k < |frames| && from <= frames[k].start < frames[k].end && Readable(data, frames[k])
    requires forall q :: from <= q < frames[k].start ==> !MagicAt(data, q)
    ensures Lost(data, frames, from, limited) == Lost(data, frames, frames[k].end, limited)
  {
    hide Readable, MagicAt, IsLast;
  }

  /** At any other first magic, it is that one. */
  lemma {:induction false} OneLost(data: Bytes, frames: seq<Frame>, from: nat, p: nat, limited: bool)
    requires from <= p < |data| && MagicAt(data, p) && !Covered(data, frames, p)
    requires forall q :: from <= q < p ==> !MagicAt(data, q)
    ensures |Lost(data, frames, from, limited)| == |Lost(data, frames, p + 1, limited)| + if limited && IsLast(data, p) then 0 else 1
  {
    hide Covered, MagicAt, IsLast;
    var forgiven := limited && IsLast(data, p);
    assert Lost(data, frames, from, limited) == Lost(data, frames, p + 1, limited) + if forgiven then {} else {p};
  }

  lemma {:induction false} NotCovered(data: Bytes, frames: seq<Frame>, k: nat, from: nat, p: nat)
    requires From(frames, k, from) && Behind(data, frames, k, from) && from <= p
    requires forall i :: k <= i < |frames| && frames[i].start <= p ==> !Readable(data, frames[i])
    ensures !Covered(data, frames, p)
  {
    hide Readable;
  }

  /** A failed attempt at the first magic counts it, unless it is the last one of a cut read. */
  lemma {:induction false} FailureCounts(dec: Decompress, data: Bytes, p: nat, limited: bool)
    requires p < |data|
    requires Attempt(dec, data, p, Ends(data, [p] + Starts(data, p + 1)), FRAME_BOUNDARY_RETRIES) == None
    ensures Decode(dec, data, [p] + Starts(data, p + 1), limited, None).corrupt ==
              Decode(dec, data, Starts(data, p + 1), limited, None).corrupt + if limited && IsLast(data, p) then 0 else 1
  {
    hide Starts, Attempt, Decode, IsLast;
    var starts := [p] + Starts(data, p + 1);
    LastIff(data, p);
    DecodeUnfold(dec, data, starts, 0, limited, None);
    assert starts[0..] == starts && starts[1..] == Starts(data, p + 1);
  }

  lemma {:induction false} SuccessCounts(dec: Decompress, data: Bytes, f: Frame, limited: bool)
    requires FrameAt(dec, data, f)
    ensures if Readable(data, f) then
              Decode(dec, data, [f.start] + Starts(data, f.start + 1), limited, None).corrupt == Decode(dec, data, Starts(data, f.end), limited, None).corrupt
            else Attempt(dec, data, f.start, Ends(data, [f.start] + Starts(data, f.start + 1)), FRAME_BOUNDARY_RETRIES) == None
  {
    hide Starts, Attempt, Magics, Decode, MagicAt, Ends;
    var later := Starts(data, f.start + 1);
    var starts := [f.start] + later;
    var m := Magics(data, f.start + 1, f.end);
    AttemptFrame(dec, data, f, f.start + 1, FRAME_BOUNDARY_RETRIES);
    StartsSkip(data, f.start + 1, f.end);
    EndsAre(data, f.start, later);
    DecodeUnfold(dec, data, starts, 0, limited, None);
    assert starts[0..] == starts;
    assert starts[m + 1..] == later[m..];
  }

  lemma {:induction false} CorruptFrom(dec: Decompress, data: Bytes, frames: seq<Frame>, k: nat, from: nat, limited: bool)
    requires LogOf(dec, data, frames) && From(frames, k, from) && Behind(data, frames, k, from)
    ensures Decode(dec, data, Starts(data, from), limited, None).corrupt == |Lost(data, frames, from, limited)|
    decreases |data| - from
  {
    hide Decode, Starts, Magics, Readable, Lost, Attempt, MagicAt, IsLast, Covered;
    var starts := Starts(data, from);
    NextStart(dec, data, frames, k, from);
    FirstIsFirst(data, from);
    if starts == [] {
      DecodeStops(dec, data, starts, limited, None);
      NothingLeft(data, frames, from, limited);
    } else {
      var p := starts[0];
      if k < |frames| && frames[k].start == p {
        SuccessCounts(dec, data, frames[k], limited);
        if Readable(data, frames[k]) {
          NothingLost(data, frames, k, from, limited);
          CorruptFrom(dec, data, frames, k + 1, frames[k].end, limited);
        } else {
          NotCovered(data, frames, k, from, p);
          FailureCounts(dec, data, p, limited);
          OneLost(data, frames, from, p, limited);
          CorruptFrom(dec, data, frames, k + 1, p + 1, limited);
        }
      } else {
        NotCovered(data, frames, k, from, p);
        AttemptElsewhere(dec, data, frames, p, Ends(data, starts));
        FailureCounts(dec, data, p, limited);
        OneLost(data, frames, from, p, limited);
        CorruptFrom(dec, data, frames, k, p + 1, limited);
      }
    }
  }

  lemma {:induction false} FirstIsFirst(data: Bytes, from: nat)
    ensures Starts(data, from) != [] ==> forall q :: from <= q < Starts(data, from)[0] ==> !MagicAt(data, q)
    ensures Starts(data, from) == [] ==> forall q :: from <= q ==> !MagicAt(data, q)
  {
    StartsByIndexOf(data, from);
    forall q | from <= q && MagicAt(data, q)
      ensures Starts(data, from) != []
    {
      StartsComplete(data, from, q);
    }
  }

  lemma NothingLeft(data: Bytes, frames: seq<Frame>, from: nat, limited: bool)
    requires forall q :: from <= q ==> !MagicAt(data, q)
    ensures Lost(data, frames, from, limited) == {}
  {
    hide Covered, MagicAt, IsLast;
  }

  /**
   * Without a frame limit the corrupt frames that are reported are exactly the magics outside the
   * frames that are read; only the last magic of a cut read is forgiven.
   */
  lemma {:induction false} CorruptCount(dec: Decompress, data: Bytes, frames: seq<Frame>, limited: bool)
    requires LogOf(dec, data, frames)
    ensures Decode(dec, data, Starts(data, 0), limited, None).corrupt == |Lost(data, frames, 0, limited)|
  {
    CorruptFrom(dec, data, frames, 0, 0, limited);
  }

  ghost function AllTexts(frames: seq<Frame>): seq<Bytes> {
    if frames == [] then [] else [frames[0].text] + AllTexts(frames[1..])
  }

  lemma CancelPrefix(head: seq<Event>, a: seq<Event>, b: seq<Event>)
    ensures head + a == head + b <==> a == b
  {
    if head + a == head + b {
      assert |a| == |b|;
      forall i | 0 <= i < |a|
        ensures a[i] == b[i]
      {
        assert (head + a)[|head| + i] == (head + b)[|head| + i];
      }
    }
  }

  /** Every frame that the retry bound loses carries no events. */
  ghost predicate LosesNothing(parse: ParseLines, data: Bytes, frames: seq<Frame>) {
    forall i :: 0 <= i < |frames| && parse(frames[i].text) != [] ==> Readable(data, frames[i])
  }

  lemma {:induction false} LosesNothingCons(parse: ParseLines, data: Bytes, frames: seq<Frame>)
    requires frames != []
    ensures LosesNothing(parse, data, frames)
            <==> (Readable(data, frames[0]) || parse(frames[0].text) == []) && LosesNothing(parse, data, frames[1..])
  {
    assert forall i :: 0 <= i < |frames[1..]| ==> frames[1..][i] == frames[i + 1];
    assert forall i :: 0 < i < |frames| ==> frames[i] == frames[1..][i - 1];
  }

  lemma {:induction false} ReadableLoses(parse: ParseLines, data: Bytes, frames: seq<Frame>)
    ensures var got := EventsOf(parse, ReadableTexts(data, frames));
            var all := EventsOf(parse, AllTexts(frames));
            |got| <= |all| && (got == all <==> LosesNothing(parse, data, frames))
    decreases |frames|
  {
    if frames != [] {
      ReadableLoses(parse, data, frames[1..]);
      LosesNothingCons(parse, data, frames);
      var head := parse(frames[0].text);
      var got := EventsOf(parse, ReadableTexts(data, frames[1..]));
      var all := EventsOf(parse, AllTexts(frames[1..]));
      EventsOfAppend(parse, [frames[0].text], AllTexts(frames[1..]));
      EventsOfAppend(parse, [frames[0].text], ReadableTexts(data, frames[1..]));
      assert EventsOf(parse, [frames[0].text]) == head;
      assert EventsOf(parse, AllTexts(frames)) == head + all;
      if Readable(data, frames[0]) {
        assert EventsOf(parse, ReadableTexts(data, frames)) == head + got;
        CancelPrefix(head, got, all);
      } else {
        assert ReadableTexts(data, frames) == ReadableTexts(data, frames[1..]);
        assert head == [] ==> head + all == all;
        assert head != [] ==> |head + all| > |all|;
      }
    }
  }

  /**
   * decodeFrames with no limits returns every event of every good frame, in order, if and only if
   * each good frame that carries events contains at most 3 inner occurrences of the magic.
   */
  lemma {:induction false} DecodesEverythingIff(dec: Decompress, parse: ParseLines, data: Bytes, frames: seq<Frame>, maxBytes: nat)
    requires LogOf(dec, data, frames) && |data| <= maxBytes
    ensures EventsOf(parse, DecodeBuffer(dec, data, maxBytes, None).texts) == EventsOf(parse, AllTexts(frames))
            <==> LosesNothing(parse, data, frames)
  {
    DecodeLog(dec, data, frames, false, None);
    ReadableLoses(parse, data, frames);
  }

  // ---------------------------------------------------------------- a log read only in part

  lemma {:induction false} CutMagics(data: Bytes, n: nat, lo: nat, hi: nat)
    requires hi <= n <= |data| && forall p :: lo <= p < hi && MagicAt(data, p) ==> p + 4 <= hi
    ensures Magics(data[..n], lo, hi) == Magics(data, lo, hi)
    decreases hi - lo
  {
    if lo < hi {
      CutMagics(data, n, lo + 1, hi);
      assert MagicAt(data[..n], lo) <==> MagicAt(data, lo);
    }
  }

  lemma {:induction false} CutFrame(dec: Decompress, data: Bytes, n: nat, f: Frame)
    requires FrameAt(dec, data, f) && f.end <= n <= |data|
    ensures FrameAt(dec, data[..n], f) && (Snug(data, f) ==> (Readable(data[..n], f) <==> Readable(data, f)))
  {
    var cut := data[..n];
    forall q: nat
      ensures dec(Sub(cut, f.start, q)) == dec(Sub(data, f.start, if q < n then q else n))
    {
      assert Sub(cut, f.start, q) == Sub(data, f.start, if q < n then q else n);
    }
    if Snug(data, f) {
      CutMagics(data, n, f.start + 1, f.end);
    }
  }

  /** How many frames lie completely inside the first `n` bytes. */
  ghost function Whole(frames: seq<Frame>, n: nat): (k: nat)
    ensures k <= |frames|
  {
    if frames == [] || frames[0].end > n then 0 else 1 + Whole(frames[1..], n)
  }

  lemma {:induction false} WholeSplits(dec: Decompress, data: Bytes, frames: seq<Frame>, n: nat)
    requires forall i :: 0 <= i < |frames| ==> FrameAt(dec, data, frames[i])
    requires forall i, j :: 0 <= i < j < |frames| ==> frames[i].end <= frames[j].start
    ensures forall i :: 0 <= i < |frames| ==> (i < Whole(frames, n) <==> frames[i].end <= n)
    decreases |frames|
  {
    if frames != [] {
      var rest := frames[1..];
      assert forall i :: 0 <= i < |rest| ==> rest[i] == frames[i + 1];
      WholeSplits(dec, data, rest, n);
      forall i | 0 <= i < |frames|
        ensures i < Whole(frames, n) <==> frames[i].end <= n
      {
        if i > 0 {
          assert frames[i] == rest[i - 1] && frames[0].end <= frames[i].start;
          assert FrameAt(dec, data, frames[i]);
        }
      }
    }
  }

  /** The first `n` bytes of a well-formed log are a well-formed log of the frames they hold whole. */
  lemma {:induction false} CutLog(dec: Decompress, data: Bytes, frames: seq<Frame>, n: nat)
    requires LogOf(dec, data, frames) && n <= |data|
    ensures LogOf(dec, data[..n], frames[..Whole(frames, n)])
  {
    var cut := data[..n];
    var k := Whole(frames, n);
    WholeSplits(dec, data, frames, n);
    forall i | 0 <= i < k
      ensures FrameAt(dec, cut, frames[..k][i])
    {
      assert FrameAt(dec, data, frames[i]);
      CutFrame(dec, data, n, frames[i]);
    }
    forall p: nat, q: nat | MagicAt(cut, p) && !StartsFrame(frames[..k], p)
      ensures dec(Sub(cut, p, q)) == None
    {
      CutElsewhere(dec, data, frames, n, p, q);
    }
  }

  lemma {:induction false} CutElsewhere(dec: Decompress, data: Bytes, frames: seq<Frame>, n: nat, p: nat, q: nat)
    requires LogOf(dec, data, frames) && n <= |data|
    requires MagicAt(data[..n], p) && !StartsFrame(frames[..Whole(frames, n)], p)
    ensures dec(Sub(data[..n], p, q)) == None
  {
    hide FrameAt, Whole;
    var k := Whole(frames, n);
    var q' := if q < n then q else n;
    assert Sub(data[..n], p, q) == Sub(data, p, q');
    assert MagicAt(data, p);
    if StartsFrame(frames, p) {
      var i :| 0 <= i < |frames| && frames[i].start == p;
      WholeSplits(dec, data, frames, n);
      assert forall j :: 0 <= j < k ==> frames[..k][j].start != p;
      assert i >= k;
      PrefixFails(dec, data, frames[i], q');
    }
  }

  lemma PrefixFails(dec: Decompress, data: Bytes, f: Frame, q: nat)
    requires FrameAt(dec, data, f) && q < f.end
    ensures dec(Sub(data, f.start, q)) == None
  {
  }

  lemma {:induction false} CutTexts(dec: Decompress, data: Bytes, frames: seq<Frame>, n: nat, k: nat)
    requires n <= |data| && k <= |frames|
    requires forall i :: 0 <= i < k ==> FrameAt(dec, data, frames[i]) && frames[i].end <= n && Snug(data, frames[i])
    ensures ReadableTexts(data[..n], frames[..k]) <= ReadableTexts(data, frames)
    decreases k
  {
    if k > 0 {
      CutFrame(dec, data, n, frames[0]);
      assert frames[..k][0] == frames[0] && frames[..k][1..] == frames[1..][..k - 1];
      CutTexts(dec, data, frames[1..], n, k - 1);
    }
  }

  lemma {:induction false} EventsPrefix(parse: ParseLines, a: seq<Bytes>, b: seq<Bytes>)
    requires a <= b
    ensures EventsOf(parse, a) <= EventsOf(parse, b)
  {
    assert b == a + b[|a|..];
    EventsOfAppend(parse, a, b[|a|..]);
  }

  /**
   * Reading only the first `n` bytes of a well-formed log, whatever the cut hits (the middle of a
   * frame, or the middle of the next magic), yields a prefix of the events of the whole log. (A magic
   * that begins in a frame and ends in noise behind it would be lost by a cut at the frame's end.)
   */
  lemma {:induction false} CutDecodesPrefix(dec: Decompress, parse: ParseLines, data: Bytes, frames: seq<Frame>, n: nat, maxFrames: Option<nat>)
    requires LogOf(dec, data, frames) && AllSnug(data, frames) && n <= |data|
    ensures EventsOf(parse, DecodeBuffer(dec, data, n, maxFrames).texts)
            <= EventsOf(parse, DecodeBuffer(dec, data, |data|, maxFrames).texts)
    ensures EventsOf(parse, DecodeBuffer(dec, data[..n], n, maxFrames).texts)
            <= EventsOf(parse, DecodeBuffer(dec, data, |data|, maxFrames).texts)
  {
    var k := Whole(frames, n);
    var cut := data[..n];
    WholeSplits(dec, data, frames, n);
    CutLog(dec, data, frames, n);
    CutTexts(dec, data, frames, n, k);
    DecodeLog(dec, data, frames, false, maxFrames);
    DecodeLog(dec, cut, frames[..k], |data| > n, maxFrames);
    DecodeLog(dec, cut, frames[..k], false, maxFrames);
    assert Window(data, n) == cut;
    EventsPrefix(parse, Upto(maxFrames, ReadableTexts(cut, frames[..k])), Upto(maxFrames, ReadableTexts(data, frames)));
  }

  // ---------------------------------------------------------------- concatenations of frames

  /** A session log: good frames, and undecodable frames or other noise, end to end. */
  datatype Segment = Good(bytes: Bytes, text: Bytes) | Junk(bytes: Bytes)

  /** Nothing decodes from the start of `s`, wherever the slice is cut. */
  ghost predicate Dead(dec: Decompress, s: Bytes) {
    forall x: Bytes :: x <= s ==> dec(x) == None
  }

  /**
   * What is assumed of the zstd library about one segment of a log that goes on with `rest`: a good
   * frame begins with the magic and decodes, with any trailing bytes, a strict prefix of it does not,
   * and nothing in this log decodes from any other magic.
   */
  ghost predicate SegmentOk(dec: Decompress, seg: Segment, rest: Bytes) {
    && (forall p :: 0 <= p < |seg.bytes| && (seg.Good? ==> p > 0) && MagicAt(seg.bytes + rest, p) ==> Dead(dec, (seg.bytes + rest)[p..]))
    && match seg
       case Good(bytes, text) =>
         && MagicAt(bytes, 0)
         && (forall x: Bytes :: bytes <= x ==> dec(x) == Some(text)) && (forall x: Bytes :: x < bytes ==> dec(x) == None)
       case Junk(bytes) => true
  }

  ghost predicate SegmentsOk(dec: Decompress, segs: seq<Segment>) {
    segs == [] || (SegmentOk(dec, segs[0], Flatten(segs[1..])) && SegmentsOk(dec, segs[1..]))
  }

  ghost function Flatten(segs: seq<Segment>): Bytes {
    if segs == [] then [] else segs[0].bytes + Flatten(segs[1..])
  }

  ghost function FramesOf(segs: seq<Segment>, at: nat): seq<Frame> {
    if segs == [] then []
    else
      var next := at + |segs[0].bytes|;
      (if segs[0].Good? then [Frame(at, next, segs[0].text)] else []) + FramesOf(segs[1..], next)
  }

  /** Texts of the good frames in which at most 3 further magics begin. */
  ghost function GoodTexts(segs: seq<Segment>): seq<Bytes> {
    if segs == [] then []
    else (if segs[0].Good? && Magics(segs[0].bytes + Flatten(segs[1..]), 1, |segs[0].bytes|) < FRAME_BOUNDARY_RETRIES then [segs[0].text] else [])
         + GoodTexts(segs[1..])
  }

  /** The same with the magics counted in each frame by itself. */
  ghost function OwnTexts(segs: seq<Segment>): seq<Bytes> {
    if segs == [] then []
    else (if segs[0].Good? && Magics(segs[0].bytes, 1, |segs[0].bytes|) < FRAME_BOUNDARY_RETRIES then [segs[0].text] else [])
         + OwnTexts(segs[1..])
  }

  /** Every segment is a frame, decodable or not: it begins with the magic. */
  ghost predicate Framed(segs: seq<Segment>) {
    forall i :: 0 <= i < |segs| ==> MagicAt(segs[i].bytes, 0)
  }

  /**
   * The magic has no border: no proper suffix of it is a prefix of it. So no occurrence straddles
   * the point where a segment that begins with the magic follows another one.
   */
  lemma {:induction false} NoStraddle(head: Bytes, rest: Bytes, p: nat)
    requires rest == [] || MagicAt(rest, 0)
    requires MagicAt(head + rest, p) && p < |head|
    ensures p + 4 <= |head| && MagicAt(head, p)
  {
    var data := head + rest;
    assert rest != [] ==> data[|head|] == rest[0] == MAGIC[0];
    assert p + 4 <= |head|;
    assert forall i :: 0 <= i < |head| ==> data[i] == head[i];
  }

  lemma {:induction false} ShiftedMagic(head: Bytes, rest: Bytes, p: nat)
    ensures MagicAt(head + rest, |head| + p) <==> MagicAt(rest, p)
  {
    var data := head + rest;
    assert forall i :: 0 <= i < |rest| ==> data[|head| + i] == rest[i];
  }

  lemma {:induction false} ShiftedSub(head: Bytes, rest: Bytes, p: nat, q: nat)
    ensures Sub(head + rest, |head| + p, q) == Sub(rest, p, if q < |head| then 0 else q - |head|)
  {
  }

  lemma {:induction false} ShiftedMagics(head: Bytes, rest: Bytes, lo: nat, hi: nat)
    ensures Magics(head + rest, |head| + lo, |head| + hi) == Magics(rest, lo, hi)
    decreases hi - lo
  {
    if lo < hi {
      ShiftedMagic(head, rest, lo);
      ShiftedMagics(head, rest, lo + 1, hi);
    }
  }

  lemma {:induction false} HeadMagics(head: Bytes, rest: Bytes, lo: nat)
    requires (rest == [] || MagicAt(rest, 0)) && lo <= |head|
    ensures Magics(head + rest, lo, |head|) == Magics(head, lo, |head|)
    decreases |head| - lo
  {
    if lo < |head| {
      HeadMagics(head, rest, lo + 1);
      if MagicAt(head + rest, lo) {
        NoStraddle(head, rest, lo);
      }
      assert MagicAt(head, lo) ==> MagicAt(head + rest, lo);
    }
  }

  ghost function Shift(f: Frame, n: nat): Frame {
    Frame(f.start + n, f.end + n, f.text)
  }

  lemma {:induction false} ShiftedFrameDecodes(dec: Decompress, head: Bytes, rest: Bytes, f: Frame)
    requires FrameAt(dec, rest, f)
    ensures var g := Shift(f, |head|);
            && (forall q: nat :: g.end <= q ==> dec(Sub(head + rest, g.start, q)) == Some(f.text))
            && (forall q: nat :: q < g.end ==> dec(Sub(head + rest, g.start, q)) == None)
  {
    var g := Shift(f, |head|);
    forall q: nat
      ensures dec(Sub(head + rest, g.start, q)) == dec(Sub(rest, f.start, if q < |head| then 0 else q - |head|))
    {
      ShiftedSub(head, rest, f.start, q);
    }
  }

  lemma {:induction false} ShiftedFrame(dec: Decompress, head: Bytes, rest: Bytes, f: Frame)
    requires FrameAt(dec, rest, f)
    ensures FrameAt(dec, head + rest, Shift(f, |head|))
    ensures Readable(head + rest, Shift(f, |head|)) <==> Readable(rest, f)
  {
    hide Sub, Magics;
    ShiftedFrameDecodes(dec, head, rest, f);
    ShiftedMagic(head, rest, f.start);
    ShiftedMagics(head, rest, f.start + 1, f.end);
  }

  lemma {:induction false} FramesShift(segs: seq<Segment>, at: nat)
    ensures |FramesOf(segs, at)| == |FramesOf(segs, 0)|
    ensures forall i :: 0 <= i < |FramesOf(segs, 0)| ==> FramesOf(segs, at)[i] == Shift(FramesOf(segs, 0)[i], at)
    decreases |segs|
  {
    if segs != [] {
      FramesShift(segs[1..], at + |segs[0].bytes|);
      FramesShift(segs[1..], |segs[0].bytes|);
    }
  }

  lemma {:induction false} FlattenBegins(segs: seq<Segment>)
    requires Framed(segs)
    ensures Flatten(segs) == [] || MagicAt(Flatten(segs), 0)
  {
  }

  /** A good segment at the head of a log is a frame of that log. */
  lemma {:induction false} HeadFrame(dec: Decompress, seg: Segment, rest: Bytes)
    requires SegmentOk(dec, seg, rest) && seg.Good?
    ensures FrameAt(dec, seg.bytes + rest, Frame(0, |seg.bytes|, seg.text))
  {
    var data := seg.bytes + rest;
    forall q: nat
      ensures |seg.bytes| <= q ==> dec(Sub(data, 0, q)) == Some(seg.text)
      ensures q < |seg.bytes| ==> dec(Sub(data, 0, q)) == None
    {
      if |seg.bytes| <= q {
        assert seg.bytes <= Sub(data, 0, q);
      } else {
        assert Sub(data, 0, q) < seg.bytes;
      }
    }
  }

  /** Any magic of the head segment that does not start a good frame is dead in the whole log. */
  lemma {:induction false} HeadElsewhere(dec: Decompress, seg: Segment, rest: Bytes, p: nat, q: nat)
    requires SegmentOk(dec, seg, rest)
    requires MagicAt(seg.bytes + rest, p) && p < |seg.bytes| && (seg.Good? ==> p > 0)
    ensures dec(Sub(seg.bytes + rest, p, q)) == None
  {
    SliceFromHead(seg.bytes, rest, p, q);
  }

  /** A slice that starts inside the head begins the tail of the head and what follows. */
  lemma {:induction false} SliceFromHead(head: Bytes, rest: Bytes, p: nat, q: nat)
    requires p < |head|
    ensures Sub(head + rest, p, q) <= (head + rest)[p..]
  {
    var data := head + rest;
    var slice := Sub(data, p, q);
    assert forall i :: 0 <= i < |slice| ==> slice[i] == data[p + i];
  }

  /** Any magic behind the head segment that does not start a good frame is dead in the whole log. */
  lemma {:induction false} TailElsewhere(dec: Decompress, head: Bytes, rest: Bytes, frames: seq<Frame>, p: nat, q: nat)
    requires LogOf(dec, rest, frames)
    requires MagicAt(head + rest, |head| + p) && !StartsFrame(frames, p)
    ensures dec(Sub(head + rest, |head| + p, q)) == None
  {
    ShiftedMagic(head, rest, p);
    ShiftedSub(head, rest, p, q);
  }

  /** `frames` are the frames of the rest as they lie behind the head segment, `own` its own frame. */
  ghost predicate Follows(seg: Segment, later: seq<Frame>, own: seq<Frame>, frames: seq<Frame>) {
    && own == (if seg.Good? then [Frame(0, |seg.bytes|, seg.text)] else [])
    && |frames| == |later| && forall i :: 0 <= i < |later| ==> frames[i] == Shift(later[i], |seg.bytes|)
  }

  lemma {:induction false} PrependElsewhere(dec: Decompress, seg: Segment, rest: Bytes, later: seq<Frame>,
                                            own: seq<Frame>, frames: seq<Frame>, p: nat, q: nat)
    requires SegmentOk(dec, seg, rest) && LogOf(dec, rest, later) && Follows(seg, later, own, frames)
    requires MagicAt(seg.bytes + rest, p) && !StartsFrame(own + frames, p)
    ensures dec(Sub(seg.bytes + rest, p, q)) == None
  {
    hide SegmentOk, LogOf;
    if p < |seg.bytes| {
      assert seg.Good? ==> (own + frames)[0] == own[0];
      HeadElsewhere(dec, seg, rest, p, q);
    } else {
      forall i | 0 <= i < |later|
        ensures later[i].start != p - |seg.bytes|
      {
        assert (own + frames)[|own| + i] == frames[i];
      }
      TailElsewhere(dec, seg.bytes, rest, later, p - |seg.bytes|, q);
    }
  }

  lemma {:induction false} PrependFrames(dec: Decompress, seg: Segment, rest: Bytes, later: seq<Frame>, own: seq<Frame>, frames: seq<Frame>)
    requires SegmentOk(dec, seg, rest) && LogOf(dec, rest, later) && Follows(seg, later, own, frames)
    ensures forall i :: 0 <= i < |own + frames| ==> FrameAt(dec, seg.bytes + rest, (own + frames)[i])
    ensures forall i, j :: 0 <= i < j < |own + frames| ==> (own + frames)[i].end <= (own + frames)[j].start
  {
    hide FrameAt;
    forall i | 0 <= i < |later|
      ensures FrameAt(dec, seg.bytes + rest, frames[i])
    {
      ShiftedFrame(dec, seg.bytes, rest, later[i]);
    }
    if seg.Good? {
      HeadFrame(dec, seg, rest);
    }
  }

  /** One more segment in front of a well-formed log. */
  lemma {:induction false} Prepend(dec: Decompress, seg: Segment, rest: Bytes, later: seq<Frame>, own: seq<Frame>, frames: seq<Frame>)
    requires SegmentOk(dec, seg, rest) && LogOf(dec, rest, later) && Follows(seg, later, own, frames)
    ensures LogOf(dec, seg.bytes + rest, own + frames)
  {
    hide FrameAt, SegmentOk, Follows;
    PrependFrames(dec, seg, rest, later, own, frames);
    forall p: nat, q: nat | MagicAt(seg.bytes + rest, p) && !StartsFrame(own + frames, p)
      ensures dec(Sub(seg.bytes + rest, p, q)) == None
    {
      PrependElsewhere(dec, seg, rest, later, own, frames, p, q);
    }
  }

  lemma {:induction false} PrependReadable(dec: Decompress, seg: Segment, rest: Bytes, later: seq<Frame>, own: seq<Frame>, frames: seq<Frame>)
    requires SegmentOk(dec, seg, rest) && LogOf(dec, rest, later) && Follows(seg, later, own, frames)
    ensures ReadableTexts(seg.bytes + rest, own + frames)
            == (if seg.Good? && Magics(seg.bytes + rest, 1, |seg.bytes|) < FRAME_BOUNDARY_RETRIES then [seg.text] else [])
               + ReadableTexts(rest, later)
  {
    ShiftedTexts(dec, seg.bytes, rest, later, frames);
    assert own != [] ==> (own + frames)[1..] == frames;
    assert own == [] ==> own + frames == frames;
  }

  /** Good frames and noise end to end form a well-formed log. */
  lemma {:induction false} ConcatLog(dec: Decompress, segs: seq<Segment>)
    requires SegmentsOk(dec, segs)
    ensures LogOf(dec, Flatten(segs), FramesOf(segs, 0))
    ensures ReadableTexts(Flatten(segs), FramesOf(segs, 0)) == GoodTexts(segs)
    decreases |segs|
  {
    if segs != [] {
      var rest := Flatten(segs[1..]);
      var later := FramesOf(segs[1..], 0);
      var frames := FramesOf(segs[1..], |segs[0].bytes|);
      var own := if segs[0].Good? then [Frame(0, |segs[0].bytes|, segs[0].text)] else [];
      ConcatLog(dec, segs[1..]);
      FramesShift(segs[1..], |segs[0].bytes|);
      hide LogOf, SegmentOk, ReadableTexts, Magics, MagicAt, Flatten;
      FlattenFirst(segs);
      Prepend(dec, segs[0], rest, later, own, frames);
      PrependReadable(dec, segs[0], rest, later, own, frames);
      assert FramesOf(segs, 0) == own + frames;
    } else {
      NoSegments(dec);
    }
  }

  lemma NoSegments(dec: Decompress)
    ensures LogOf(dec, Flatten([]), FramesOf([], 0)) && ReadableTexts(Flatten([]), FramesOf([], 0)) == GoodTexts([])
  {
  }

  lemma {:induction false} ShiftedTexts(dec: Decompress, head: Bytes, rest: Bytes, frames: seq<Frame>, shifted: seq<Frame>)
    requires |shifted| == |frames|
    requires forall i :: 0 <= i < |frames| ==> FrameAt(dec, rest, frames[i]) && shifted[i] == Shift(frames[i], |head|)
    ensures ReadableTexts(head + rest, shifted) == ReadableTexts(rest, frames)
    decreases |frames|
  {
    if frames != [] {
      ShiftedFrame(dec, head, rest, frames[0]);
      ShiftedTexts(dec, head, rest, frames[1..], shifted[1..]);
    }
  }

  /** When every segment is a frame, no magic straddles two of them: each frame counts its own, and cuts are harmless. */
  lemma {:induction false} FramesCountTheirOwn(segs: seq<Segment>)
    requires Framed(segs)
    ensures GoodTexts(segs) == OwnTexts(segs) && AllSnug(Flatten(segs), FramesOf(segs, 0))
    decreases |segs|
  {
    if segs != [] {
      var head, rest := segs[0].bytes, Flatten(segs[1..]);
      var frames := FramesOf(segs[1..], |head|);
      FramesCountTheirOwn(segs[1..]);
      FlattenBegins(segs[1..]);
      HeadMagics(head, rest, 1);
      FramesShift(segs[1..], |head|);
      hide Magics, MagicAt, Flatten, Framed, Snug, Readable;
      assert Flatten(segs) == head + rest by { FlattenFirst(segs); }
      var own := if segs[0].Good? then [Frame(0, |head|, segs[0].text)] else [];
      assert FramesOf(segs, 0) == own + frames;
      HeadIsSnug(segs[0], rest);
      ShiftedSnug(head, rest, FramesOf(segs[1..], 0), frames);
      assert forall i :: 0 <= i < |own + frames| ==> (own + frames)[i] == if i < |own| then own[i] else frames[i - |own|];
    }
  }

  lemma FlattenFirst(segs: seq<Segment>)
    requires segs != []
    ensures Flatten(segs) == segs[0].bytes + Flatten(segs[1..])
  {
  }

  lemma HeadIsSnug(seg: Segment, rest: Bytes)
    requires rest == [] || MagicAt(rest, 0)
    ensures seg.Good? ==> Snug(seg.bytes + rest, Frame(0, |seg.bytes|, seg.text))
  {
    forall p | 0 < p < |seg.bytes| && MagicAt(seg.bytes + rest, p)
      ensures p + 4 <= |seg.bytes|
    {
      NoStraddle(seg.bytes, rest, p);
    }
  }

  lemma {:induction false} ShiftedSnug(head: Bytes, rest: Bytes, frames: seq<Frame>, shifted: seq<Frame>)
    requires AllSnug(rest, frames) && |shifted| == |frames|
    requires forall i :: 0 <= i < |frames| ==> shifted[i] == Shift(frames[i], |head|)
    ensures AllSnug(head + rest, shifted)
  {
    hide MagicAt;
    forall i, p | 0 <= i < |frames| && shifted[i].start < p < shifted[i].end && MagicAt(head + rest, p)
      ensures p + 4 <= shifted[i].end
    {
      ShiftedMagic(head, rest, p - |head|);
      assert Snug(rest, frames[i]);
    }
  }

  /** Decoding a concatenation, noise included, returns exactly the events of its good frames, in order. */
  lemma {:induction false} ConcatDecodes(dec: Decompress, segs: seq<Segment>, maxBytes: nat, maxFrames: Option<nat>)
    requires SegmentsOk(dec, segs) && |Flatten(segs)| <= maxBytes
    ensures DecodeBuffer(dec, Flatten(segs), maxBytes, maxFrames).texts == Upto(maxFrames, GoodTexts(segs))
    ensures Framed(segs) ==> GoodTexts(segs) == OwnTexts(segs)
  {
    if Framed(segs) { FramesCountTheirOwn(segs); }
    ConcatLog(dec, segs);
    DecodeLog(dec, Flatten(segs), FramesOf(segs, 0), false, maxFrames);
  }

  /** Of a log of frames, decodable or not, the first `n` bytes yield a prefix of the events. */
  lemma {:induction false} FramesCutAnywhere(dec: Decompress, parse: ParseLines, segs: seq<Segment>, n: nat, maxFrames: Option<nat>)
    requires SegmentsOk(dec, segs) && Framed(segs) && n <= |Flatten(segs)|
    ensures EventsOf(parse, DecodeBuffer(dec, Flatten(segs), n, maxFrames).texts)
            <= EventsOf(parse, DecodeBuffer(dec, Flatten(segs), |Flatten(segs)|, maxFrames).texts)
  {
    hide Framed, SegmentsOk, LogOf, AllSnug, DecodeBuffer, Flatten;
    ConcatLog(dec, segs);
    FramesCountTheirOwn(segs);
    CutDecodesPrefix(dec, parse, Flatten(segs), FramesOf(segs, 0), n, maxFrames);
  }

  // ---------------------------------------------------------------- a frame that is lost

  /** A frame of 25 bytes with 4 inner magics, and a library that decodes that frame and nothing else. */
  const CROWDED: Bytes := MAGIC + [1] + MAGIC + [2] + MAGIC + [3] + MAGIC + [4] + MAGIC + [5]

  ghost function DecodesOnly(frame: Bytes, text: Bytes): Decompress {
    (x: Bytes) => if frame <= x then Some(text) else None
  }

  lemma {:induction false} MagicsSplit(data: Bytes, lo: nat, mid: nat, hi: nat)
    requires lo <= mid <= hi
    ensures Magics(data, lo, hi) == Magics(data, lo, mid) + Magics(data, mid, hi)
    decreases mid - lo
  {
    if lo < mid {
      MagicsSplit(data, lo + 1, mid, hi);
    }
  }

  lemma NotCrowded(x: Bytes)
    requires |x| > 4 ==> x[4] != CROWDED[4]
    ensures !(CROWDED <= x)
  {
  }

  lemma {:induction false} CrowdedIsGood()
    ensures SegmentOk(DecodesOnly(CROWDED, [7]), Good(CROWDED, [7]), [])
  {
    var dec := DecodesOnly(CROWDED, [7]);
    assert CROWDED + [] == CROWDED;
    forall p | 0 < p < |CROWDED| && MagicAt(CROWDED, p)
      ensures Dead(dec, CROWDED[p..])
    {
      assert CROWDED[p + 4] != CROWDED[4];
      forall x: Bytes | x <= CROWDED[p..]
        ensures dec(x) == None
      {
        assert |x| > 4 ==> x[4] == CROWDED[p + 4];
        NotCrowded(x);
      }
    }
  }

  lemma CrowdedMagics()
    ensures Magics(CROWDED, 1, |CROWDED|) >= 4
  {
    hide Magics;
    assert MagicAt(CROWDED, 5) && MagicAt(CROWDED, 10) && MagicAt(CROWDED, 15) && MagicAt(CROWDED, 20);
    MagicCounts(CROWDED, 5, 10);
    MagicCounts(CROWDED, 10, 15);
    MagicCounts(CROWDED, 15, 20);
    MagicCounts(CROWDED, 20, 25);
    MagicsSplit(CROWDED, 1, 5, 25);
    MagicsSplit(CROWDED, 5, 10, 25);
    MagicsSplit(CROWDED, 10, 15, 25);
    MagicsSplit(CROWDED, 15, 20, 25);
  }

  lemma MagicCounts(data: Bytes, lo: nat, hi: nat)
    requires lo < hi && MagicAt(data, lo)
    ensures Magics(data, lo, hi) >= 1
  {
  }

  lemma {:induction false} CrowdedFrameIsLost()
    ensures var dec := DecodesOnly(CROWDED, [7]);
            && SegmentsOk(dec, [Good(CROWDED, [7])])
            && DecodeBuffer(dec, CROWDED, 100, None).texts == []
  {
    hide SegmentOk, DecodeBuffer;
    var dec := DecodesOnly(CROWDED, [7]);
    var seg := Good(CROWDED, [7]);
    CrowdedIsGood();
    CrowdedMagics();
    assert [seg][1..] == [] && Flatten([seg][1..]) == [] && SegmentsOk(dec, [seg][1..]);
    assert Flatten([seg]) == CROWDED;
    assert GoodTexts([seg]) == [] by {
      assert GoodTexts([seg][1..]) == [];
    }
    ConcatDecodes(dec, [seg], 100, None);
  }
}
