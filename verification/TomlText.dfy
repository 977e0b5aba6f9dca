/** Text as lines, white space, and the patterns of parseFrpcTomlSummary (tunnel.mjs). */
module TomlText {
  // A position in a text is what is left of its line and the lines after it, so a pattern's white space can run
  // over line ends, and its repetitions give back what they took when the rest does not match.

  import opened Options

  // ---------------------------------------------------------------- lines

  predicate OneLine(s: string) {
    '\n' !in s
  }

  ghost predicate AllOneLine(lines: seq<string>) {
    forall i :: 0 <= i < |lines| ==> OneLine(lines[i])
  }

  function Split(text: string): (lines: seq<string>)
    ensures lines != []
  {
    if text == "" then [""]
    else
      var rest := Split(text[1..]);
      if text[0] == '\n' then [""] + rest else [[text[0]] + rest[0]] + rest[1..]
  }

  function Join(lines: seq<string>): string {
    if lines == [] then "" else if |lines| == 1 then lines[0] else lines[0] + "\n" + Join(lines[1..])
  }

  lemma {:induction false} SplitLine(line: string, rest: string)
    requires OneLine(line)
    ensures Split(line) == [line]
    ensures Split(line + "\n" + rest) == [line] + Split(rest)
  {
    if line == "" {
      assert (line + "\n" + rest)[1..] == rest;
    } else {
      var text := line + "\n" + rest;
      assert text[1..] == line[1..] + "\n" + rest;
      SplitLine(line[1..], rest);
      assert [line[0]] + line[1..] == line;
    }
  }

  lemma {:induction false} SplitJoin(lines: seq<string>)
    requires lines != [] && AllOneLine(lines)
    ensures Split(Join(lines)) == lines
  {
    if |lines| == 1 {
      SplitLine(lines[0], "");
    } else {
      SplitJoin(lines[1..]);
      SplitLine(lines[0], Join(lines[1..]));
    }
  }

  // ---------------------------------------------------------------- white space

  /** `\s`, and what trim removes. */
  predicate IsSpace(c: char) {
    || c in " \t\n\r" || c == '\U{0B}' || c == '\U{0C}' || c == '\U{A0}' || c == '\U{FEFF}' || c == '\U{1680}'
    || '\U{2000}' <= c <= '\U{200A}' || c == '\U{2028}' || c == '\U{2029}' || c == '\U{202F}' || c == '\U{205F}' || c == '\U{3000}'
  }

  predicate Blank(s: string) {
    forall i :: 0 <= i < |s| ==> IsSpace(s[i])
  }

  function TrimLeft(s: string): string {
    if s != "" && IsSpace(s[0]) then TrimLeft(s[1..]) else s
  }

  function TrimRight(s: string): string {
    if s != "" && IsSpace(s[|s| - 1]) then TrimRight(s[..|s| - 1]) else s
  }

  function Trim(s: string): string {
    TrimRight(TrimLeft(s))
  }

  predicate Trimmed(s: string) {
    s != "" && !IsSpace(s[0]) && !IsSpace(s[|s| - 1])
  }

  lemma {:induction false} TrimShortens(s: string)
    ensures |TrimLeft(s)| <= |s| && |TrimRight(s)| <= |s| && |Trim(s)| <= |s|
    ensures s != "" && IsSpace(s[0]) ==> |TrimLeft(s)| < |s|
    ensures s != "" && IsSpace(s[|s| - 1]) ==> |TrimRight(s)| < |s|
    decreases |s|
  {
    if s != "" && IsSpace(s[0]) { TrimShortens(s[1..]); }
    if s != "" && IsSpace(s[|s| - 1]) { TrimShortens(s[..|s| - 1]); }
    if TrimLeft(s) != s { TrimShortens(TrimLeft(s)); }
  }

  /** Trimming leaves a non-empty text alone exactly when it has no white space at its ends. */
  lemma {:induction false} TrimIff(s: string)
    requires s != ""
    ensures Trim(s) == s <==> Trimmed(s)
  {
    TrimShortens(s);
    TrimShortens(TrimLeft(s));
  }

  // ---------------------------------------------------------------- positions and patterns

  datatype Cursor = Cursor(rest: string, more: seq<string>)

  function Weight(c: Cursor): nat {
    |c.rest| + |c.more| + Total(c.more)
  }

  function Total(lines: seq<string>): nat {
    if lines == [] then 0 else |lines[0]| + Total(lines[1..])
  }

  predicate AtSpace(c: Cursor) {
    if c.rest == "" then c.more != [] else IsSpace(c.rest[0])
  }

  /** One character on; at the end of a line, over the line end. */
  function Next(c: Cursor): (r: Cursor)
    requires AtSpace(c)
    ensures Weight(r) < Weight(c)
  {
    if c.rest == "" then Cursor(c.more[0], c.more[1..]) else Cursor(c.rest[1..], c.more)
  }

  /** All the white space from here. */
  function Skip(c: Cursor): (r: Cursor)
    ensures Weight(r) <= Weight(c)
    decreases Weight(c)
  {
    if AtSpace(c) then Skip(Next(c)) else c
  }

  predicate StartsWith(s: string, prefix: string) {
    |prefix| <= |s| && s[..|prefix|] == prefix
  }

  /** A key of the file: printable ASCII that begins with a letter, so no white space in it. */
  predicate GoodKey(key: string) {
    key != "" && 'a' <= key[0] <= 'z' && forall i :: 0 <= i < |key| ==> '!' <= key[i] <= '~'
  }

  /** `[^"\n]+` at its longest. */
  function Run(s: string): string {
    if s == "" || s[0] == '"' then "" else [s[0]] + Run(s[1..])
  }

  /** `"?\s*$` */
  predicate EndsClean(s: string) {
    Blank(s) || (s != "" && s[0] == '"' && Blank(s[1..]))
  }

  /** `([^"\n]+)"?\s*$` with the group at most n characters long: the longest that works. */
  function Anchored(s: string, n: nat): Option<string>
    requires n <= |s|
  {
    if n == 0 then None else if EndsClean(s[n..]) then Some(s[..n]) else Anchored(s, n - 1)
  }

  lemma {:induction false} RunShort(s: string)
    ensures |Run(s)| <= |s| && Run(s) == s[..|Run(s)|]
    ensures |Run(s)| < |s| ==> s[|Run(s)|] == '"'
  {
    if s != "" && s[0] != '"' { RunShort(s[1..]); }
  }

  /** The kinds of value: to the end of the line, or just its beginning, or a number. */
  datatype Kind = WholeLine | Start | Digits

  function Number(s: string): string {
    if s != "" && '0' <= s[0] <= '9' then [s[0]] + Number(s[1..]) else ""
  }

  function Group(s: string, kind: Kind): Option<string> {
    RunShort(s);
    match kind
    case WholeLine => Anchored(s, |Run(s)|)
    case Start => if Run(s) == "" then None else Some(Run(s))
    case Digits => if Number(s) == "" then None else Some(Number(s))
  }

  /** `"?` and the group: with the quote if that works, else without. Numbers have no quote. */
  function Here(s: string, kind: Kind): Option<string> {
    if kind != Digits && s != "" && s[0] == '"' && Group(s[1..], kind).Some? then Group(s[1..], kind) else Group(s, kind)
  }

  /** `\s*` and the value: as much white space as lets the rest match. */
  function Value(c: Cursor, kind: Kind): Option<string>
    decreases Weight(c)
  {
    if AtSpace(c) && Value(Next(c), kind).Some? then Value(Next(c), kind) else Here(c.rest, kind)
  }

  /** The whole pattern, starting at the beginning of a line. */
  function MatchHere(c: Cursor, key: string, kind: Kind): Option<string> {
    var c1 := Skip(c);
    if !StartsWith(c1.rest, key) then None
    else
      var c2 := Skip(Cursor(c1.rest[|key|..], c1.more));
      if !StartsWith(c2.rest, "=") then None else Value(Cursor(c2.rest[1..], c2.more), kind)
  }

  /** The leftmost match in a text. */
  function Find(lines: seq<string>, key: string, kind: Kind): Option<string> {
    if lines == [] then None
    else
      var found := MatchHere(Cursor(lines[0], lines[1..]), key, kind);
      if found.Some? then found else Find(lines[1..], key, kind)
  }
}
