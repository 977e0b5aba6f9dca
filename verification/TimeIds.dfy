/** Ids that sort by creation time: a fixed-width base-32 stamp before the random part (util.mjs). */
module TimeIds {
  import opened TextOrder

  const ID_ALPHABET: string := "0123456789abcdefghjkmnpqrstvwxyz"
  const STAMP_CHARS: nat := 10

  function Pow32(n: nat): nat {
    if n == 0 then 1 else 32 * Pow32(n - 1)
  }

  /** The last `n` base-32 digits of `t`, most significant first. */
  function Stamp(t: nat, n: nat): (s: string)
    ensures |s| == n
  {
    if n == 0 then "" else Stamp(t / 32, n - 1) + [ID_ALPHABET[t % 32]]
  }

  function Id(prefix: string, t: nat, random: string): string {
    prefix + "_" + Stamp(t, STAMP_CHARS) + random
  }

  /** `now` is the clock in milliseconds, `random` the hex text of 6 random bytes. */
  method NewId(prefix: string, now: nat, random: string) returns (id: string)
    ensures id == Id(prefix, now, random)
  {
    var t := now;
    var stamp := "";
    for i := 0 to STAMP_CHARS
      invariant Stamp(now, STAMP_CHARS) == Stamp(t, STAMP_CHARS - i) + stamp
    {
      stamp := [ID_ALPHABET[t % 32]] + stamp;
      t := t / 32;
    }
    id := prefix + "_" + stamp + random;
  }

  // ---------------------------------------------------------------- decoding

  function DigitOf(c: char, from: nat): (d: nat)
    requires from <= 32
    ensures d <= 32
    ensures d < 32 ==> ID_ALPHABET[d] == c
    decreases 32 - from
  {
    if from == 32 then 32 else if ID_ALPHABET[from] == c then from else DigitOf(c, from + 1)
  }

  function TimeOf(stamp: string): nat {
    if stamp == "" then 0 else 32 * TimeOf(stamp[..|stamp| - 1]) + DigitOf(stamp[|stamp| - 1], 0)
  }

  lemma {:induction false} AlphabetIncreases(a: nat, b: nat)
    requires a < b < 32
    ensures ID_ALPHABET[a] < ID_ALPHABET[b]
  {
    AlphabetSteps();
    if a + 1 < b {
      AlphabetIncreases(a, b - 1);
    }
  }

  lemma AlphabetSteps()
    ensures forall i :: 0 < i < 32 ==> ID_ALPHABET[i - 1] < ID_ALPHABET[i]
  {
  }

  lemma {:induction false} DigitRoundTrip(d: nat, from: nat)
    requires from <= d < 32
    ensures DigitOf(ID_ALPHABET[d], from) == d
    decreases d - from
  {
    if from < d {
      AlphabetIncreases(from, d);
      DigitRoundTrip(d, from + 1);
    }
  }

  /** A stamp decodes back to its time; before the year 37648 ten characters lose nothing. */
  lemma {:induction false} StampRoundTrip(t: nat, n: nat)
    requires t < Pow32(n)
    ensures TimeOf(Stamp(t, n)) == t
    decreases n
  {
    if n > 0 {
      StampRoundTrip(t / 32, n - 1);
      DigitRoundTrip(t % 32, 0);
      assert Stamp(t, n)[..n - 1] == Stamp(t / 32, n - 1);
    }
  }

  /** The time that an id carries. */
  function TimeOfId(prefix: string, id: string): nat {
    var from := |prefix| + 1;
    if |id| < from + STAMP_CHARS then 0 else TimeOf(id[from..from + STAMP_CHARS])
  }

  lemma {:induction false} IdRoundTrip(prefix: string, t: nat, random: string)
    requires t < Pow32(STAMP_CHARS)
    ensures TimeOfId(prefix, Id(prefix, t, random)) == t
  {
    var from := |prefix| + 1;
    hide Pow32, TimeOf, Stamp;
    assert Id(prefix, t, random)[from..from + STAMP_CHARS] == Stamp(t, STAMP_CHARS);
    StampRoundTrip(t, STAMP_CHARS);
  }

  // ---------------------------------------------------------------- order

  lemma {:induction false} StampOrder(t: nat, u: nat, n: nat, x: string, y: string)
    requires t < u < Pow32(n)
    ensures Less(Stamp(t, n) + x, Stamp(u, n) + y)
    decreases n
  {
    var c, d := [ID_ALPHABET[t % 32]], [ID_ALPHABET[u % 32]];
    assert Stamp(t, n) + x == Stamp(t / 32, n - 1) + (c + x);
    assert Stamp(u, n) + y == Stamp(u / 32, n - 1) + (d + y);
    if t / 32 < u / 32 {
      StampOrder(t / 32, u / 32, n - 1, c + x, d + y);
    } else {
      AlphabetIncreases(t % 32, u % 32);
      LessBehindPrefix(Stamp(t / 32, n - 1), c + x, d + y);
    }
  }

  /** Whatever the random parts, ids generated at different times sort by time, and only so. */
  lemma {:induction false} IdOrderIsTimeOrder(prefix: string, t: nat, x: string, u: nat, y: string)
    requires t < Pow32(STAMP_CHARS) && u < Pow32(STAMP_CHARS) && t != u
    ensures Less(Id(prefix, t, x), Id(prefix, u, y)) <==> t < u
  {
    var head := prefix + "_";
    assert Id(prefix, t, x) == head + (Stamp(t, STAMP_CHARS) + x);
    assert Id(prefix, u, y) == head + (Stamp(u, STAMP_CHARS) + y);
    LessBehindPrefix(head, Stamp(t, STAMP_CHARS) + x, Stamp(u, STAMP_CHARS) + y);
    if t < u {
      StampOrder(t, u, STAMP_CHARS, x, y);
    } else {
      StampOrder(u, t, STAMP_CHARS, y, x);
      LessAsymmetric(Stamp(u, STAMP_CHARS) + y, Stamp(t, STAMP_CHARS) + x);
    }
  }
}
