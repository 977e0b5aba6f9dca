/** Reading back what was written (tunnel.mjs): exactly which strings survive, one value and one line at a time. */
module FrpcRoundTrip {
  import opened Options
  import opened TomlText
  import opened FrpcToml

  /** Written as itself: no quote, no backslash, no control character. */
  predicate Verbatim(s: string) {
    forall i :: 0 <= i < |s| ==> s[i] != '"' && s[i] != '\\' && s[i] >= ' '
  }

  // ---------------------------------------------------------------- one value

  lemma EscapeOne(c: char)
    ensures Escape(c) != "" && (Escape(c) == [c] <==> Verbatim([c])) && (|Escape(c)| == 1 ==> Escape(c) == [c])
  {
    assert [c][0] == c;
  }

  lemma VerbatimStep(s: string)
    requires s != ""
    ensures Verbatim(s) <==> Verbatim([s[0]]) && Verbatim(s[1..])
  {
    assert s == [s[0]] + s[1..];
  }

  lemma {:induction false} EscapeLength(s: string)
    ensures |EscapeAll(s)| >= |s|
    ensures EscapeAll(s) == s <==> Verbatim(s)
    ensures |EscapeAll(s)| == |s| ==> Verbatim(s)
  {
    hide Escape, Verbatim;
    if s == "" {
      EmptyIsVerbatim();
    } else {
      EscapeOne(s[0]);
      VerbatimStep(s);
      EscapeLength(s[1..]);
      assert s == [s[0]] + s[1..];
    }
  }

  lemma EmptyIsVerbatim()
    ensures Verbatim("")
  {
  }

  lemma PrintableIsNoSpace(c: char)
    requires '!' <= c <= '~'
    ensures !IsSpace(c)
  {
  }

  /** An escape has a quote in it only for a quote. */
  lemma {:induction false} EscapeQuotes(s: string)
    requires '"' !in s
    ensures '"' !in EscapeAll(s)
  {
    if s != "" {
      assert forall c :: c in s[1..] ==> c in s;
      EscapeQuotes(s[1..]);
      assert s[0] in s;
    }
  }

  lemma {:induction false} RunToQuote(s: string, rest: string)
    requires '"' !in s
    ensures Run(s + "\"" + rest) == s
    ensures Run(s) == s
  {
    var text := s + "\"" + rest;
    if s == "" {
      assert text[0] == '"';
    } else {
      assert text[1..] == s[1..] + "\"" + rest;
      assert forall c :: c in s[1..] ==> c in s;
      RunToQuote(s[1..], rest);
    }
  }

  lemma {:induction false} RunHasNoQuote(s: string)
    ensures '"' !in Run(s)
  {
    if s != "" && s[0] != '"' { RunHasNoQuote(s[1..]); }
  }

  /** What the reader makes of a printed string after the equals sign. */
  lemma {:induction false} QuotedStart(s: string, more: seq<string>)
    ensures Value(Cursor(" " + Quote(s), more), Start) ==
              Some(if s == "" then " " else Run(EscapeAll(s) + "\""))
  {
    var q := Quote(s);
    var c := Cursor(" " + q, more);
    assert Next(c) == Cursor(q, more) && q[1..] == EscapeAll(s) + "\"";
    QuotedHere(s);
    if s == "" {
      assert (" " + q)[1..] == q && Run(q) == "" && Run(" " + q) == " ";
    }
  }

  lemma {:induction false} QuotedHere(s: string)
    ensures !AtSpace(Cursor(Quote(s), []))
    ensures Here(Quote(s), Start) == if s == "" then None else Some(Run(EscapeAll(s) + "\""))
  {
    var q := Quote(s);
    assert q[1..] == EscapeAll(s) + "\"" && Run(q) == "";
    if s != "" {
      assert q[1..][0] == Escape(s[0])[0] && Escape(s[0])[0] != '"';
    }
  }

  /** A printed string is read back as itself exactly when it is not empty and is written verbatim. */
  lemma {:induction false} StringReadsBackIff(s: string, more: seq<string>)
    ensures Value(Cursor(" " + Quote(s), more), Start) == Some(s) <==> s != "" && Verbatim(s)
  {
    QuotedStart(s, more);
    EscapeLength(s);
    hide Value, Escape, IsSpace;
    if '"' in s {
      RunHasNoQuote(EscapeAll(s) + "\"");
    } else if s != "" {
      EscapeQuotes(s);
      RunToQuote(EscapeAll(s), "");
      assert EscapeAll(s) + "\"" + "" == EscapeAll(s) + "\"";
    }
  }

  // ---------------------------------------------------------------- one line

  /** The texts of values that are read back whole, up to the end of their line. */
  predicate GoodValue(v: string, kind: Kind) {
    v != "" && !IsSpace(v[0]) && Here(v, kind).Some?
  }

  lemma {:induction false} ValueIsHere(v: string, more: seq<string>, kind: Kind)
    requires GoodValue(v, kind)
    ensures Value(Cursor(" " + v, more), kind) == Here(v, kind)
  {
    assert Next(Cursor(" " + v, more)) == Cursor(v, more);
  }

  /** A printed setting, read by its own key, gives the value that is read from its text. */
  lemma {:induction false} LineMatches(key: string, value: string, more: seq<string>, kind: Kind)
    requires GoodKey(key) && GoodValue(value, kind)
    ensures MatchHere(Cursor(key + " = " + value, more), key, kind) == Here(value, kind)
  {
    var line := key + " = " + value;
    PrintableIsNoSpace(key[0]);
    hide GoodKey, Value, Here;
    assert line == key + (" = " + value);
    assert line[..|key|] == key && line[|key|..] == " = " + value;
    SkipOne(value, more);
    assert Skip(Cursor(line, more)) == Cursor(line, more);
    assert ("= " + value)[1..] == " " + value;
    assert StartsWith("= " + value, "=");
    ValueIsHere(value, more, kind);
  }

  lemma SkipOne(value: string, more: seq<string>)
    ensures Skip(Cursor(" = " + value, more)) == Cursor("= " + value, more)
  {
    var c := Cursor(" = " + value, more);
    assert Next(c) == Cursor("= " + value, more);
  }

  /** A line the reader passes over when it looks for a key: empty, or beginning with something else. */
  predicate Passes(line: string, key: string) {
    line == "" || (!IsSpace(line[0]) && !StartsWith(line, key))
  }

  lemma {:induction false} FindPasses(line: string, rest: seq<string>, key: string, kind: Kind)
    requires Passes(line, key) && GoodKey(key)
    ensures Find([line] + rest, key, kind) == Find(rest, key, kind)
  {
    var lines := [line] + rest;
    assert lines[1..] == rest;
    if line == "" && rest != [] {
      assert Next(Cursor(line, rest)) == Cursor(rest[0], rest[1..]);
      assert Skip(Cursor(line, rest)) == Skip(Cursor(rest[0], rest[1..]));
    }
  }

  // ---------------------------------------------------------------- values of the file

  /** Strings that the reader gets back: not empty, no white space at the ends, written verbatim, no line separator. */
  predicate Plain(s: string) {
    Trimmed(s) && Verbatim(s) && forall i :: 0 <= i < |s| ==> s[i] != '\U{2028}' && s[i] != '\U{2029}'
  }

  /** To the end of the line: a value, then its quote or nothing. */
  lemma {:induction false} GroupToTheEnd(s: string, end: string)
    requires s != "" && '"' !in s && (end == "" || end == "\"")
    ensures Group(s + end, WholeLine) == Some(s)
  {
    var text := s + end;
    assert Run(text) == s by {
      RunToQuote(s, "");
      assert s + "\"" + "" == s + "\"" && s + "" == s;
    }
    assert text[|s|..] == end && text[..|s|] == s;
    assert EndsClean(end) by { if end != "" { assert end[1..] == ""; } }
  }

  lemma {:induction false} QuotedValue(s: string)
    requires Plain(s)
    ensures GoodValue(Quote(s), Start) && Here(Quote(s), Start) == Some(s)
    ensures GoodValue(Quote(s), WholeLine) && Here(Quote(s), WholeLine) == Some(s) && Trim(s) == s
  {
    hide Group;
    var q := Quote(s);
    EscapeLength(s);
    assert q[1..] == s + "\"";
    GroupToTheEnd(s, "\"");
    assert Group(s + "\"", Start) == Some(s) by { GroupToTheQuote(s); }
    TrimIff(s);
  }

  lemma {:induction false} GroupToTheQuote(s: string)
    requires s != "" && '"' !in s
    ensures Group(s + "\"", Start) == Some(s)
  {
    RunToQuote(s, "");
    assert s + "\"" + "" == s + "\"";
  }

  lemma {:induction false} NumberWhole(s: string)
    requires forall i :: 0 <= i < |s| ==> '0' <= s[i] <= '9'
    ensures Number(s) == s
  {
    if s != "" { NumberWhole(s[1..]); }
  }

  lemma {:induction false} DecimalValue(n: nat)
    ensures GoodValue(Decimal(n), Digits) && Here(Decimal(n), Digits) == Some(Decimal(n))
    ensures GoodValue(Decimal(n), WholeLine) && Here(Decimal(n), WholeLine) == Some(Decimal(n)) && Trim(Decimal(n)) == Decimal(n)
  {
    hide Decimal;
    DigitsValue(Decimal(n));
  }

  lemma {:induction false} DigitsValue(d: string)
    requires d != "" && forall i :: 0 <= i < |d| ==> '0' <= d[i] <= '9'
    ensures GoodValue(d, Digits) && Here(d, Digits) == Some(d)
    ensures GoodValue(d, WholeLine) && Here(d, WholeLine) == Some(d) && Trim(d) == d
  {
    hide Trim, Number, Anchored, Run;
    NumberWhole(d);
    TrimIff(d);
    GroupToTheEnd(d, "");
    assert d + "" == d;
  }

  // ---------------------------------------------------------------- a value to the end of its line

  lemma {:induction false} AnchoredHasNoQuote(s: string, n: nat)
    requires n <= |s| && forall i :: 0 <= i < n ==> s[i] != '"'
    ensures Anchored(s, n).Some? ==> '"' !in Anchored(s, n).value
  {
    if n > 0 { AnchoredHasNoQuote(s, n - 1); }
  }

  lemma {:induction false} GroupHasNoQuote(s: string)
    ensures Group(s, WholeLine).Some? ==> '"' !in Group(s, WholeLine).value
  {
    RunShort(s);
    RunHasNoQuote(s);
    assert forall i :: 0 <= i < |Run(s)| ==> s[i] == Run(s)[i] && Run(s)[i] in Run(s);
    AnchoredHasNoQuote(s, |Run(s)|);
  }

  lemma {:induction false} ValueHasNoQuote(c: Cursor)
    ensures Value(c, WholeLine).Some? ==> '"' !in Value(c, WholeLine).value
    decreases Weight(c)
  {
    hide Group;
    GroupHasNoQuote(c.rest);
    if c.rest != "" { GroupHasNoQuote(c.rest[1..]); }
    if AtSpace(c) { ValueHasNoQuote(Next(c)); }
  }

  lemma {:induction false} TrimLeftEnds(s: string)
    ensures TrimLeft(s) == "" || !IsSpace(TrimLeft(s)[0])
    ensures forall c :: c in TrimLeft(s) ==> c in s
  {
    if s != "" && IsSpace(s[0]) { TrimLeftEnds(s[1..]); }
  }

  lemma {:induction false} TrimRightEnds(s: string)
    ensures TrimRight(s) == "" || (!IsSpace(TrimRight(s)[|TrimRight(s)| - 1]) && s != "" && TrimRight(s)[0] == s[0])
    ensures forall c :: c in TrimRight(s) ==> c in s
  {
    if s != "" && IsSpace(s[|s| - 1]) { TrimRightEnds(s[..|s| - 1]); }
  }

  lemma TrimEnds(s: string)
    ensures Trim(s) == "" || Trimmed(Trim(s))
    ensures forall c :: c in Trim(s) ==> c in s
  {
    TrimLeftEnds(s);
    TrimRightEnds(TrimLeft(s));
  }

  lemma EscapeEdges(c: char)
    requires !IsSpace(c)
    ensures Escape(c) != "" && !IsSpace(Escape(c)[0]) && !IsSpace(Escape(c)[|Escape(c)| - 1])
  {
    hide Escape, IsSpace;
    PrintableIsNoSpace('\\');
    if Escape(c) != [c] { PrintableIsNoSpace(Escape(c)[|Escape(c)| - 1]); }
  }

  lemma {:induction false} EscapeEnds(s: string)
    requires Trimmed(s)
    ensures Trimmed(EscapeAll(s))
  {
    hide Escape, IsSpace;
    EscapeEdges(s[0]);
    EscapeTail(s);
  }

  lemma {:induction false} EscapeTail(s: string)
    requires s != "" && !IsSpace(s[|s| - 1])
    ensures EscapeAll(s) != "" && !IsSpace(EscapeAll(s)[|EscapeAll(s)| - 1])
  {
    hide Escape, IsSpace;
    if |s| == 1 {
      assert s[1..] == "" && EscapeAll(s) == Escape(s[0]);
      EscapeEdges(s[0]);
    } else {
      EscapeTail(s[1..]);
    }
  }

  lemma {:induction false} QuotedIsRead(s: string, more: seq<string>)
    requires '"' !in EscapeAll(s) && EscapeAll(s) != ""
    ensures Value(Cursor(" " + Quote(s), more), WholeLine) == Some(EscapeAll(s))
  {
    assert Quote(s)[1..] == EscapeAll(s) + "\"";
    GroupToTheEnd(EscapeAll(s), "\"");
    hide Group, Value;
    ValueIsHere(Quote(s), more, WholeLine);
  }

  /** A top-level string is read back as itself exactly when it is trimmed, not empty, and written verbatim. */
  lemma {:induction false} PickReadsBackIff(s: string, more: seq<string>)
    ensures var v := Value(Cursor(" " + Quote(s), more), WholeLine);
            v.Some? && Trim(v.value) == s <==> Trimmed(s) && Verbatim(s)
  {
    hide Value, Group, Trim, Escape, IsSpace, GoodValue;
    var v := Value(Cursor(" " + Quote(s), more), WholeLine);
    if '"' in s {
      ValueHasNoQuote(Cursor(" " + Quote(s), more));
      if v.Some? { TrimEnds(v.value); }
    } else if s == "" {
      EmptyIsNotRead(more);
    } else {
      EscapeQuotes(s);
      EscapeLength(s);
      QuotedIsRead(s, more);
      TrimEnds(EscapeAll(s));
      TrimIff(EscapeAll(s));
      if Trimmed(s) { EscapeEnds(s); }
    }
  }

  lemma {:induction false} EmptyIsNotRead(more: seq<string>)
    ensures Value(Cursor(" " + Quote(""), more), WholeLine) == None
  {
    var q := Quote("");
    var c := Cursor(" " + q, more);
    assert q == "\"\"" && q[1..] == "\"";
    assert Next(c) == Cursor(q, more) && !AtSpace(Next(c));
    assert Group("\"", WholeLine) == None && Group(q, WholeLine) == None;
    assert Value(Next(c), WholeLine) == None;
    var text := " " + q;
    assert text[1..] == q && Run(text) == " ";
    assert !EndsClean(text[1..]) by { assert q[1] == '"' && q[1..][0] == '"'; }
    assert Anchored(text, 1) == Anchored(text, 0) == None;
  }
}
