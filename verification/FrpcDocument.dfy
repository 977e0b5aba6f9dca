/** The whole frpc.toml, written and read back (tunnel.mjs). */
module FrpcDocument {
  // Each setting of a section is found by its own key and no other line is mistaken for it, and the
  // text splits into the sections that were printed. A file is handled as a list of lines.

  import opened Options
  import opened TomlText
  import opened FrpcToml
  import opened FrpcRoundTrip

  // ---------------------------------------------------------------- keys

  predicate TopKey(k: Key) {
    k.ServerAddr? || k.ServerPort? || k.UserName? || k.LoginFailExit?
  }

  predicate ServiceKey(k: Key) {
    || k.AuthMethod? || k.AuthToken? || k.AuthScopes? || k.TlsEnable? || k.WebAddr? || k.WebPort? || k.WebPprof?
    || k.LogTo? || k.LogLevel? || k.LogMaxDays?
  }

  predicate SectionKey(k: Key) {
    !TopKey(k) && !ServiceKey(k)
  }

  /** The keys that are looked up in a section. */
  predicate FieldKey(k: Key) {
    k.EntryName? || k.EntryType? || k.LocalPort? || k.ServerName? || k.BindPort? || k.SecretKey?
  }

  lemma TextIsGood(k: Key)
    ensures GoodKey(Text(k))
  {
    hide GoodKey, Text;
    if SectionKey(k) {
      SectionTextIsGood(k);
    } else if TopKey(k) {
      TopTextIsGood(k);
    } else {
      ServiceTextIsGood(k);
    }
  }

  lemma SectionTextIsGood(k: Key)
    requires SectionKey(k)
    ensures GoodKey(Text(k))
  {
  }

  lemma ServiceTextIsGood(k: Key)
    requires ServiceKey(k)
    ensures GoodKey(Text(k))
  {
    hide GoodKey, Text;
    if k.TlsEnable? || k.WebAddr? || k.WebPort? || k.WebPprof? {
      LongTextIsGood(k);
    } else {
      ShortTextIsGood(k);
    }
  }

  lemma LongTextIsGood(k: Key)
    requires k.TlsEnable? || k.WebAddr? || k.WebPort? || k.WebPprof?
    ensures GoodKey(Text(k))
  {
  }

  lemma ShortTextIsGood(k: Key)
    requires k.AuthMethod? || k.AuthToken? || k.AuthScopes? || k.LogTo? || k.LogLevel? || k.LogMaxDays?
    ensures GoodKey(Text(k))
  {
  }

  lemma TopTextIsGood(k: Key)
    requires TopKey(k)
    ensures GoodKey(Text(k))
  {
  }

  predicate SameKind(k: Key, key: Key) {
    (TopKey(k) && TopKey(key)) || (SectionKey(k) && FieldKey(key))
  }

  /** No key that stands near it is a longer word that begins with this one. */
  lemma {:induction false} KeysAreApart(k: Key, key: Key)
    requires k != key && SameKind(k, key)
    ensures !StartsWith(Text(k), Text(key))
  {
    hide Text, StartsWith;
    if TopKey(k) {
      TopKeysAreApart(k, key);
    } else {
      FieldsAreApart(k, key);
    }
  }

  predicate Differ(text: string, prefix: string, i: nat) {
    i < |prefix| && (i >= |text| || text[i] != prefix[i])
  }

  lemma DifferentHere(text: string, prefix: string, i: nat)
    requires Differ(text, prefix, i)
    ensures !StartsWith(text, prefix)
  {
    if |prefix| <= |text| {
      assert text[..|prefix|][i] == text[i];
    }
  }

  lemma TopKeysAreApart(k: Key, key: Key)
    requires k != key && TopKey(k) && TopKey(key)
    ensures !StartsWith(Text(k), Text(key))
  {
    DifferentHere(Text(k), Text(key), if Differ(Text(k), Text(key), 0) then 0 else 6);
  }

  lemma FieldsAreApart(k: Key, key: Key)
    requires k != key && SectionKey(k) && FieldKey(key)
    ensures !StartsWith(Text(k), Text(key))
  {
    var a, b := Text(k), Text(key);
    DifferentHere(a, b, if Differ(a, b, 0) then 0 else if Differ(a, b, 1) then 1 else if Differ(a, b, 2) then 2 else if Differ(a, b, 4) then 4 else 5);
  }

  // ---------------------------------------------------------------- looking a key up

  function Lookup(doc: seq<Line>, key: Key): Option<Term> {
    if doc == [] then None
    else if doc[0].Set? && doc[0].key == key then Some(doc[0].term)
    else Lookup(doc[1..], key)
  }

  /** Lines among which the key cannot be mistaken for another. */
  predicate Near(doc: seq<Line>, key: Key) {
    forall i :: 0 <= i < |doc| ==> !doc[i].Header? && (doc[i].Set? ==> SameKind(doc[i].key, key))
  }

  lemma {:induction false} OtherPasses(line: Line, key: Key)
    requires !line.Header? && (line.Set? ==> line.key != key && SameKind(line.key, key))
    ensures Passes(Print(line), Text(key))
  {
    TextIsGood(key);
    match line
    case Gap =>
    case Note(remark) =>
      assert Print(line)[0] == '#';
      FirstDiffers(Print(line), Text(key));
    case Set(k, term) =>
      TextIsGood(k);
      KeysAreApart(k, key);
      hide Text;
      PrintableIsNoSpace(Text(k)[0]);
      LongerPasses(Text(k), Write(term), Text(key));
  }

  lemma FirstDiffers(line: string, key: string)
    requires line != "" && key != "" && line[0] != key[0]
    ensures !StartsWith(line, key)
  {
    if |key| <= |line| {
      assert line[..|key|][0] == line[0];
    }
  }

  lemma LongerPasses(k: string, value: string, key: string)
    requires GoodKey(k) && GoodKey(key) && !StartsWith(k, key)
    ensures !StartsWith(k + " = " + value, key)
  {
    var line := k + " = " + value;
    if |key| <= |k| {
      assert line[..|key|] == k[..|key|];
    } else if |key| <= |line| {
      assert line[..|key|][|k|] == ' ';
    }
  }

  /** The reader's search through printed lines is a lookup in the lines that were printed. */
  lemma {:induction false} FindIsLookup(doc: seq<Line>, tail: seq<string>, key: Key, kind: Kind)
    requires Near(doc, key) && (Lookup(doc, key).Some? ==> GoodValue(Write(Lookup(doc, key).value), kind))
    ensures Find(PrintAll(doc) + tail, Text(key), kind) ==
              if Lookup(doc, key).Some? then Here(Write(Lookup(doc, key).value), kind) else Find(tail, Text(key), kind)
  {
    hide Text, Print, Find, GoodKey, GoodValue, Here, Passes;
    TextIsGood(key);
    if doc == [] {
      assert PrintAll(doc) + tail == tail;
    } else {
      var rest := PrintAll(doc[1..]) + tail;
      assert PrintAll(doc) + tail == [Print(doc[0])] + rest;
      if doc[0].Set? && doc[0].key == key {
        FindsHere(Text(key), Write(doc[0].term), rest, kind);
        PrintSet(doc[0]);
      } else {
        NearHere(doc, key);
        OtherPasses(doc[0], key);
        FindPasses(Print(doc[0]), rest, Text(key), kind);
        FindIsLookup(doc[1..], tail, key, kind);
      }
    }
  }

  lemma NearHere(doc: seq<Line>, key: Key)
    requires doc != [] && Near(doc, key)
    ensures !doc[0].Header? && (doc[0].Set? ==> SameKind(doc[0].key, key)) && Near(doc[1..], key)
  {
    hide SameKind;
  }

  lemma FindsHere(key: string, value: string, rest: seq<string>, kind: Kind)
    requires GoodKey(key) && GoodValue(value, kind)
    ensures Find([key + " = " + value] + rest, key, kind) == Here(value, kind)
  {
    hide GoodKey, MatchHere, Here;
    var lines := [key + " = " + value] + rest;
    assert lines[1..] == rest;
    LineMatches(key, value, rest, kind);
  }

  lemma PrintSet(line: Line)
    requires line.Set?
    ensures Print(line) == Text(line.key) + " = " + Write(line.term)
  {
  }

  lemma {:induction false} LookupLater(doc: seq<Line>, key: Key, i: nat)
    requires i < |doc| && doc[i].Set? && doc[i].key == key && forall j :: 0 <= j < i ==> !(doc[j].Set? && doc[j].key == key)
    ensures Lookup(doc, key) == Some(doc[i].term)
  {
    if i > 0 { LookupLater(doc[1..], key, i - 1); }
  }

  lemma {:induction false} LookupNever(doc: seq<Line>, key: Key)
    requires forall j :: 0 <= j < |doc| ==> !(doc[j].Set? && doc[j].key == key)
    ensures Lookup(doc, key) == None
  {
    if doc != [] { LookupNever(doc[1..], key); }
  }

  lemma {:induction false} LookupJoins(a: seq<Line>, b: seq<Line>, key: Key)
    ensures Lookup(a + b, key) == if Lookup(a, key).Some? then Lookup(a, key) else Lookup(b, key)
  {
    if a == [] {
      assert a + b == b;
    } else {
      assert (a + b)[1..] == a[1..] + b;
      LookupJoins(a[1..], b, key);
    }
  }

  // ---------------------------------------------------------------- the settings of the file

  /** The settings before the first section: the token only if there is one, TLS as configured, the web server at home only. */
  predicate TopIsSet(top: seq<Line>, tunnel: Tunnel) {
    && Lookup(top, LoginFailExit) == Some(Flag(false))
    && Lookup(top, AuthMethod) == Some(Quoted("token"))
    && Lookup(top, AuthToken) == (if tunnel.token != "" then Some(Quoted(tunnel.token)) else None)
    && Lookup(top, AuthScopes) == (if tunnel.token != "" then Some(Words(["HeartBeats", "NewWorkConns"])) else None)
    && Lookup(top, TlsEnable) == Some(Flag(tunnel.tls))
    && Lookup(top, WebAddr) == Some(Quoted("127.0.0.1"))
    && Lookup(top, WebPort) == Some(Count(tunnel.adminPort))
    && Lookup(top, WebPprof) == Some(Flag(false))
    && Lookup(top, LogTo) == Some(Quoted(tunnel.logFile))
    && Lookup(top, LogLevel) == Some(Quoted("info"))
    && Lookup(top, LogMaxDays) == Some(Count(7))
  }

  lemma {:induction false} AuthIsSet(token: string)
    ensures Lookup(Auth(token), AuthMethod) == Some(Quoted("token"))
    ensures Lookup(Auth(token), AuthToken) == (if token != "" then Some(Quoted(token)) else None)
    ensures Lookup(Auth(token), AuthScopes) == (if token != "" then Some(Words(["HeartBeats", "NewWorkConns"])) else None)
    ensures forall key: Key | !key.AuthMethod? && !key.AuthToken? && !key.AuthScopes? :: Lookup(Auth(token), key) == None
  {
    hide Lookup;
    var doc := Auth(token);
    if token != "" {
      LookupLater(doc, AuthMethod, 0);
      LookupLater(doc, AuthToken, 1);
      LookupLater(doc, AuthScopes, 2);
    } else {
      LookupLater(doc, AuthMethod, 1);
      LookupNever(doc, AuthToken);
      LookupNever(doc, AuthScopes);
    }
    forall key: Key | !key.AuthMethod? && !key.AuthToken? && !key.AuthScopes?
      ensures Lookup(doc, key) == None
    {
      LookupNever(doc, key);
    }
  }

  lemma {:induction false} ServicesAreSet(cfg: Config)
    ensures var doc := Services(cfg);
            && Lookup(doc, TlsEnable) == Some(Flag(cfg.tunnel.tls))
            && Lookup(doc, WebAddr) == Some(Quoted("127.0.0.1"))
            && Lookup(doc, WebPort) == Some(Count(cfg.tunnel.adminPort))
            && Lookup(doc, WebPprof) == Some(Flag(false))
            && Lookup(doc, AuthToken) == Lookup(doc, AuthScopes) == None
  {
    hide Lookup;
    var doc := Services(cfg);
    LookupLater(doc, TlsEnable, 0);
    LookupLater(doc, WebAddr, 2);
    LookupLater(doc, WebPort, 3);
    LookupLater(doc, WebPprof, 4);
    LookupNever(doc, AuthToken);
    LookupNever(doc, AuthScopes);
  }

  lemma {:induction false} LogIsSet(cfg: Config)
    ensures var doc := Services(cfg);
            && Lookup(doc, LogTo) == Some(Quoted(cfg.tunnel.logFile))
            && Lookup(doc, LogLevel) == Some(Quoted("info"))
            && Lookup(doc, LogMaxDays) == Some(Count(7))
  {
    hide Lookup;
    var doc := Services(cfg);
    LookupLater(doc, LogTo, 6);
    LookupLater(doc, LogLevel, 7);
    LookupLater(doc, LogMaxDays, 8);
  }

  lemma {:induction false} StartIsSet(cfg: Config, generated: string, key: Key)
    ensures var doc := Head(cfg.name, generated) + Server(cfg);
            && (ServiceKey(key) ==> Lookup(doc, key) == None)
            && Lookup(doc, LoginFailExit) == Some(Flag(false))
  {
    hide Lookup;
    var doc := Head(cfg.name, generated) + Server(cfg);
    LookupLater(doc, LoginFailExit, 7);
    if ServiceKey(key) { LookupNever(doc, key); }
  }

  lemma {:induction false} TopLookup(cfg: Config, generated: string, key: Key)
    requires ServiceKey(key)
    ensures Lookup(Top(cfg, generated), key) ==
              if Lookup(Auth(cfg.tunnel.token), key).Some? then Lookup(Auth(cfg.tunnel.token), key) else Lookup(Services(cfg), key)
    ensures Lookup(Top(cfg, generated), LoginFailExit) == Some(Flag(false))
  {
    hide Lookup, Head, Server, Auth, Services;
    var start := Head(cfg.name, generated) + Server(cfg);
    StartIsSet(cfg, generated, key);
    LookupJoins(start, Auth(cfg.tunnel.token), key);
    LookupJoins(start + Auth(cfg.tunnel.token), Services(cfg), key);
    LookupJoins(start, Auth(cfg.tunnel.token), LoginFailExit);
    LookupJoins(start + Auth(cfg.tunnel.token), Services(cfg), LoginFailExit);
  }

  lemma {:induction false} TopSettings(cfg: Config, generated: string)
    ensures TopIsSet(Top(cfg, generated), cfg.tunnel)
  {
    hide Lookup, Top, Auth, Services;
    AuthIsSet(cfg.tunnel.token);
    ServicesAreSet(cfg);
    LogIsSet(cfg);
    forall key: Key | ServiceKey(key)
      ensures Lookup(Top(cfg, generated), key) ==
                if Lookup(Auth(cfg.tunnel.token), key).Some? then Lookup(Auth(cfg.tunnel.token), key) else Lookup(Services(cfg), key)
    {
      TopLookup(cfg, generated, key);
    }
    TopLookup(cfg, generated, TlsEnable);
  }

  /** What a section sets besides the values that the reader looks for. */
  lemma {:induction false} SectionSettings(cfg: Config, v: Visitor)
    ensures var user := if cfg.tunnel.user.Some? then cfg.tunnel.user.value else "dsh-link";
            && Lookup(ProxyBody(cfg), AllowedUsers) == Some(Words(if user == "dsh-link" then ["dsh-link"] else [user, "dsh-link"]))
            && Lookup(ProxyBody(cfg), LocalIP) == Some(Quoted("127.0.0.1"))
    ensures Lookup(VisitorBody(v), BindAddr) == Some(Quoted("127.0.0.1"))
    ensures forall body | body == ProxyBody(cfg) || body == VisitorBody(v) ::
              Lookup(body, UseEncryption) == Some(Flag(true)) && Lookup(body, UseCompression) == Some(Flag(false))
  {
    hide Lookup;
    var a, b := ProxyBody(cfg), VisitorBody(v);
    var n := if v.secretKey != "" then 4 else 3;
    LookupLater(a, AllowedUsers, 3);
    LookupLater(a, LocalIP, 4);
    LookupLater(a, UseEncryption, 6);
    LookupLater(a, UseCompression, 7);
    LookupLater(b, BindAddr, n);
    LookupLater(b, UseEncryption, n + 2);
    LookupLater(b, UseCompression, n + 3);
  }

  lemma {:induction false} LookupIsThere(doc: seq<Line>, key: Key)
    ensures Lookup(doc, key).Some? ==> Set(key, Lookup(doc, key).value) in doc
  {
    if doc != [] { LookupIsThere(doc[1..], key); }
  }

  lemma {:induction false} TopLineIsPrinted(cfg: Config, generated: string, key: Key)
    requires Lookup(Top(cfg, generated), key).Some?
    ensures Text(key) + " = " + Write(Lookup(Top(cfg, generated), key).value) in PrintAll(Doc(cfg, generated))
  {
    hide Top, ProxyBody, VisitorPart, VisitorsFor, Text, Write, Lookup;
    var line := Set(key, Lookup(Top(cfg, generated), key).value);
    LookupIsThere(Top(cfg, generated), key);
    var i :| 0 <= i < |Top(cfg, generated)| && Top(cfg, generated)[i] == line;
    assert Doc(cfg, generated)[i] == line;
    assert PrintAll(Doc(cfg, generated))[i] == Print(line);
  }

  /** The file says so: the token line stands there, and TLS is switched on or off as configured. */
  lemma {:induction false} FileSays(cfg: Config, generated: string)
    ensures var lines := PrintAll(Doc(cfg, generated));
            && "loginFailExit = false" in lines
            && "auth.method = " + Quote("token") in lines
            && (cfg.tunnel.token != "" ==> "auth.token = " + Quote(cfg.tunnel.token) in lines)
            && "transport.tls.enable = " + (if cfg.tunnel.tls then "true" else "false") in lines
            && "webServer.port = " + Decimal(cfg.tunnel.adminPort) in lines
            && "log.to = " + Quote(cfg.tunnel.logFile) in lines
  {
    hide Doc, Top, PrintAll, Lookup, Quote, Decimal, Text;
    TopSettings(cfg, generated);
    SettingTexts();
    TopLineIsPrinted(cfg, generated, LoginFailExit);
    TopLineIsPrinted(cfg, generated, AuthMethod);
    TopLineIsPrinted(cfg, generated, TlsEnable);
    TopLineIsPrinted(cfg, generated, WebPort);
    TopLineIsPrinted(cfg, generated, LogTo);
    if cfg.tunnel.token != "" { TopLineIsPrinted(cfg, generated, AuthToken); }
  }

  lemma SettingTexts()
    ensures Text(LoginFailExit) + " = " + "false" == "loginFailExit = false"
    ensures Text(AuthMethod) + " = " == "auth.method = " && Text(AuthToken) + " = " == "auth.token = "
    ensures Text(TlsEnable) + " = " == "transport.tls.enable = " && Text(WebPort) + " = " == "webServer.port = " && Text(LogTo) + " = " == "log.to = "
  {
  }

  // ---------------------------------------------------------------- sections

  function SkipGaps(doc: seq<Line>): (r: seq<Line>)
    ensures |r| <= |doc|
  {
    if doc != [] && doc[0].Gap? then SkipGaps(doc[1..]) else doc
  }

  /** The lines before the next header, its section, and the lines after it. */
  function CutDoc(doc: seq<Line>): (r: (seq<Line>, Option<(Section, seq<Line>)>))
    ensures r.1.Some? ==> |r.1.value.1| < |doc|
  {
    if doc == [] then ([], None)
    else
      var s := SkipGaps(doc);
      if s != [] && s[0].Header? then ([], Some((s[0].section, s[1..])))
      else
        var (before, after) := CutDoc(doc[1..]);
        ([doc[0]] + before, after)
  }

  datatype Part = Part(section: Section, body: seq<Line>)

  /** The sections of a file, as lines. */
  function Parts(doc: seq<Line>): seq<Part>
    decreases |doc|
  {
    match CutDoc(doc).1
    case None => []
    case Some((section, after)) => [Part(section, CutDoc(after).0)] + Parts(after)
  }

  function PrintPart(part: Part): seq<string> {
    [NameOf(part.section) + "]]"] + PrintAll(part.body)
  }

  function PrintParts(parts: seq<Part>): seq<seq<string>> {
    if parts == [] then [] else [PrintPart(parts[0])] + PrintParts(parts[1..])
  }

  lemma {:induction false} HeaderPrints(doc: seq<Line>)
    requires doc != []
    ensures HeaderHere(PrintAll(doc)) ==
              var s := SkipGaps(doc);
              if s != [] && s[0].Header? then Some([NameOf(s[0].section) + "]]"] + PrintAll(s[1..])) else None
  {
    var lines := PrintAll(doc);
    assert lines[1..] == PrintAll(doc[1..]);
    match doc[0]
    case Gap =>
      if |doc| > 1 {
        assert Next(Cursor(lines[0], lines[1..])) == Cursor(lines[1..][0], lines[1..][1..]);
        HeaderPrints(doc[1..]);
      }
    case Header(section) =>
      assert lines[0] == "[[" + (NameOf(section) + "]]");
      assert lines[0][..2] == "[[" && lines[0][2..] == NameOf(section) + "]]";
    case Note(remark) =>
      assert lines[0][0] == '#';
      FirstDiffers(lines[0], "[[");
    case Set(key, term) =>
      TextIsGood(key);
      hide Text;
      PrintableIsNoSpace(Text(key)[0]);
      FirstDiffers(lines[0], "[[");
  }

  /** Cutting printed lines is printing cut lines. */
  lemma {:induction false} CutPrints(doc: seq<Line>)
    ensures var (before, after) := CutDoc(doc);
            Cut(PrintAll(doc)) ==
              (PrintAll(before), if after.None? then None else Some([NameOf(after.value.0) + "]]"] + PrintAll(after.value.1)))
  {
    hide Print, NameOf, HeaderHere;
    if doc != [] {
      HeaderPrints(doc);
      var s := SkipGaps(doc);
      if !(s != [] && s[0].Header?) {
        CutPrints(doc[1..]);
        assert PrintAll(doc)[1..] == PrintAll(doc[1..]);
        assert PrintAll([doc[0]] + CutDoc(doc[1..]).0) == [Print(doc[0])] + PrintAll(CutDoc(doc[1..]).0);
      }
    }
  }

  /** Reading the sections of a printed file gives its printed sections. */
  lemma {:induction false} SectionsPrint(doc: seq<Line>)
    ensures Sections(PrintAll(doc)) == PrintParts(Parts(doc))
    decreases |doc|
  {
    hide Cut, Print, NameOf, CutDoc;
    CutPrints(doc);
    match CutDoc(doc).1
    case None =>
    case Some((section, after)) =>
      CutPrints(after);
      CutIsShorter(doc);
      SectionsPrint(after);
      assert ([NameOf(section) + "]]"] + PrintAll(after))[1..] == PrintAll(after);
  }

  lemma CutIsShorter(doc: seq<Line>)
    ensures CutDoc(doc).1.Some? ==> |CutDoc(doc).1.value.1| < |doc|
  {
  }

  // ---------------------------------------------------------------- the sections of the file

  /** Lines without a header and without a gap at the end stay before the next header. */
  predicate Plainly(doc: seq<Line>) {
    (forall i :: 0 <= i < |doc| ==> !doc[i].Header?) && (doc != [] ==> !doc[|doc| - 1].Gap?)
  }

  lemma {:induction false} SkipGapsStays(doc: seq<Line>, rest: seq<Line>)
    requires Plainly(doc) && doc != []
    ensures SkipGaps(doc + rest) != [] && !SkipGaps(doc + rest)[0].Header?
  {
    assert (doc + rest)[1..] == doc[1..] + rest;
    if doc[0].Gap? { SkipGapsStays(doc[1..], rest); }
  }

  lemma {:induction false} CutAfter(doc: seq<Line>, rest: seq<Line>)
    requires Plainly(doc)
    ensures CutDoc(doc + rest) == (doc + CutDoc(rest).0, CutDoc(rest).1)
  {
    if doc == [] {
      assert doc + rest == rest && doc + CutDoc(rest).0 == CutDoc(rest).0;
    } else {
      SkipGapsStays(doc, rest);
      CutAfter(doc[1..], rest);
      assert (doc + rest)[1..] == doc[1..] + rest;
      assert [doc[0]] + (doc[1..] + CutDoc(rest).0) == doc + CutDoc(rest).0;
    }
  }

  /** At a header the lines before are none; a gap in front of it is dropped. */
  lemma CutHeader(gap: bool, section: Section, rest: seq<Line>)
    ensures CutDoc((if gap then [Gap] else []) + [Header(section)] + rest) == ([], Some((section, rest)))
  {
    var doc := (if gap then [Gap] else []) + [Header(section)] + rest;
    if gap {
      assert doc[1..] == [Header(section)] + rest && SkipGaps(doc) == SkipGaps(doc[1..]) == doc[1..];
      assert doc[1..][1..] == rest;
    } else {
      assert doc == [Header(section)] + rest && doc[1..] == rest;
    }
  }

  /** A section in front of a header: the gap between them belongs to neither. */
  lemma {:induction false} PartBefore(section: Section, body: seq<Line>, gap: bool, next: Section, rest: seq<Line>)
    requires Plainly(body)
    ensures Parts([Header(section)] + body + (if gap then [Gap] else []) + [Header(next)] + rest) ==
              [Part(section, body)] + Parts([Header(next)] + rest)
  {
    hide CutDoc;
    var gaps := if gap then [Gap] else [];
    var tail := [Header(next)] + rest;
    var after := body + (gaps + [Header(next)] + rest);
    PartSteps(section, after);
    PartSteps(next, rest);
    CutHeader(gap, next, rest);
    CutAfter(body, gaps + [Header(next)] + rest);
    assert [Header(section)] + body + gaps + [Header(next)] + rest == [Header(section)] + after;
    assert body + [] == body;
    Reparts(after, tail);
  }

  lemma PartSteps(section: Section, after: seq<Line>)
    ensures CutDoc([Header(section)] + after) == ([], Some((section, after)))
    ensures Parts([Header(section)] + after) == [Part(section, CutDoc(after).0)] + Parts(after)
  {
    hide CutDoc;
    CutHeader(false, section, after);
    assert [] + [Header(section)] + after == [Header(section)] + after;
  }

  lemma Reparts(a: seq<Line>, b: seq<Line>)
    requires CutDoc(a).1 == CutDoc(b).1
    ensures Parts(a) == Parts(b)
  {
    hide CutDoc;
  }

  lemma {:induction false} LastPart(section: Section, body: seq<Line>, tail: seq<Line>)
    requires Plainly(body) && (tail == [] || tail == [Gap])
    ensures Parts([Header(section)] + body + tail) == [Part(section, body + tail)]
  {
    hide CutDoc;
    assert [Header(section)] + body + tail == [] + [Header(section)] + (body + tail);
    CutHeader(false, section, body + tail);
    CutAfter(body, tail);
    CutTail(tail);
  }

  lemma CutTail(tail: seq<Line>)
    requires tail == [] || tail == [Gap]
    ensures CutDoc(tail) == (tail, None)
  {
    if tail == [Gap] {
      assert tail[1..] == [] && SkipGaps(tail) == [];
      assert [tail[0]] + [] == tail;
    }
  }

  /** The parts that a list of visitors makes; only the last one keeps the gap behind it. */
  function VisitorParts(visitors: seq<Visitor>): seq<Part> {
    if visitors == [] then []
    else [Part(Visitors, VisitorBody(visitors[0]) + (if |visitors| == 1 then [Gap] else []))] + VisitorParts(visitors[1..])
  }

  lemma BodiesArePlain(cfg: Config, v: Visitor)
    ensures Plainly(VisitorBody(v)) && Plainly(ProxyBody(cfg))
  {
  }

  lemma VisitorIsNear(v: Visitor, key: Key)
    requires FieldKey(key)
    ensures Near(VisitorBody(v), key)
  {
    hide FieldKey;
  }

  lemma ProxyIsNear(cfg: Config, key: Key)
    requires FieldKey(key)
    ensures Near(ProxyBody(cfg), key)
  {
    hide FieldKey;
  }

  lemma FieldsAreNear(cfg: Config, v: Visitor)
    ensures forall key :: FieldKey(key) ==> Near(VisitorBody(v), key) && Near(ProxyBody(cfg), key)
  {
    hide FieldKey, Near, VisitorBody, ProxyBody;
    forall key | FieldKey(key)
      ensures Near(VisitorBody(v), key) && Near(ProxyBody(cfg), key)
    {
      VisitorIsNear(v, key);
      ProxyIsNear(cfg, key);
    }
  }

  lemma {:induction false} VisitorsParts(cfg: Config, visitors: seq<Visitor>)
    ensures Parts(VisitorDoc(visitors)) == VisitorParts(visitors)
    decreases |visitors|
  {
    hide VisitorBody, CutDoc, Plainly, Parts, VisitorDoc;
    if visitors == [] {
      NoParts();
    } else {
      var v, rest := visitors[0], visitors[1..];
      BodiesArePlain(cfg, v);
      VisitorsParts(cfg, rest);
      FirstVisitor(visitors);
      BodyThenVisitors(VisitorBody(v), rest);
    }
  }

  lemma NoParts()
    ensures Parts([]) == [] && VisitorDoc([]) == []
  {
  }

  lemma {:induction false} BodyThenVisitors(body: seq<Line>, rest: seq<Visitor>)
    requires Plainly(body)
    ensures Parts([Header(Visitors)] + body + [Gap] + VisitorDoc(rest)) ==
              [Part(Visitors, body + (if rest == [] then [Gap] else []))] + Parts(VisitorDoc(rest))
  {
    hide VisitorBody, CutDoc, Plainly, Parts, VisitorDoc;
    NoParts();
    if rest == [] {
      LastPart(Visitors, body, [Gap]);
      assert [Header(Visitors)] + body + [Gap] + [] == [Header(Visitors)] + body + [Gap];
      assert [Part(Visitors, body + [Gap])] + [] == [Part(Visitors, body + [Gap])];
    } else {
      var more := VisitorBody(rest[0]) + [Gap] + VisitorDoc(rest[1..]);
      FirstVisitor(rest);
      PartBefore(Visitors, body, true, Visitors, more);
      assert [Header(Visitors)] + body + [Gap] + VisitorDoc(rest) == [Header(Visitors)] + body + [Gap] + [Header(Visitors)] + more;
      assert body + (if rest == [] then [Gap] else []) == body;
    }
  }

  lemma TopIsPlain(cfg: Config, generated: string)
    ensures Plainly(Top(cfg, generated))
  {
    var services := Services(cfg);
    assert !services[|services| - 1].Gap?;
  }

  /** The sections of the file: the proxy, then the visitors. */
  lemma {:induction false} FileParts(cfg: Config, generated: string)
    ensures var visitors := VisitorsFor(cfg.peers);
            Parts(Doc(cfg, generated)) ==
              [Part(Proxies, ProxyBody(cfg) + (if visitors == [] then [] else [Gap, Note(VisitorsFollow)]))] + VisitorParts(visitors)
  {
    hide Top, ProxyBody, VisitorPart, CutDoc, Parts, Plainly, VisitorsFor;
    var visitors := VisitorsFor(cfg.peers);
    var after := ProxyBody(cfg) + VisitorPart(visitors);
    TopIsPlain(cfg, generated);
    assert Doc(cfg, generated) == Top(cfg, generated) + ([Header(Proxies)] + after);
    TopIsSkipped(Top(cfg, generated), [Header(Proxies)] + after);
    BodiesArePlain(cfg, Visitor("", "", "", "", 0, ""));
    BodyThenPart(cfg, ProxyBody(cfg), visitors);
  }

  lemma {:induction false} BodyThenPart(cfg: Config, body: seq<Line>, visitors: seq<Visitor>)
    requires Plainly(body)
    ensures Parts([Header(Proxies)] + (body + VisitorPart(visitors))) ==
              [Part(Proxies, body + (if visitors == [] then [] else [Gap, Note(VisitorsFollow)]))] + VisitorParts(visitors)
  {
    hide VisitorBody, VisitorDoc, CutDoc, Parts, Plainly;
    if visitors == [] {
      LastPart(Proxies, body, []);
      assert [Header(Proxies)] + (body + []) == [Header(Proxies)] + body + [];
      assert [Part(Proxies, body + [])] + [] == [Part(Proxies, body + [])];
    } else {
      var note := [Gap, Note(VisitorsFollow)];
      NoteIsPlain(body, VisitorsFollow);
      VisitorsParts(cfg, visitors);
      var more := VisitorBody(visitors[0]) + [Gap] + VisitorDoc(visitors[1..]);
      FirstVisitor(visitors);
      PartBefore(Proxies, body + note, false, Visitors, more);
      assert [Header(Proxies)] + (body + (note + VisitorDoc(visitors))) == [Header(Proxies)] + (body + note) + [] + [Header(Visitors)] + more;
    }
  }

  lemma FirstVisitor(visitors: seq<Visitor>)
    requires visitors != []
    ensures VisitorDoc(visitors) == [Header(Visitors)] + (VisitorBody(visitors[0]) + [Gap] + VisitorDoc(visitors[1..]))
    ensures VisitorDoc(visitors) == [Header(Visitors)] + VisitorBody(visitors[0]) + [Gap] + VisitorDoc(visitors[1..])
  {
    hide VisitorBody;
  }

  lemma NoteIsPlain(body: seq<Line>, remark: Remark)
    requires Plainly(body)
    ensures Plainly(body + [Gap, Note(remark)])
  {
  }

  lemma {:induction false} TopIsSkipped(top: seq<Line>, rest: seq<Line>)
    requires Plainly(top)
    ensures Parts(top + rest) == Parts(rest)
  {
    hide CutDoc;
    CutAfter(top, rest);
  }

  // ---------------------------------------------------------------- what the reader finds in a section

  function EntryOfVisitor(v: Visitor): Entry {
    Entry("visitors", Some("to-" + v.peer), Some("stcp"), None, Some(v.serverName), Some(Decimal(v.bindPort)),
          if v.secretKey != "" then Some(v.secretKey) else None)
  }

  function EntryOfProxy(cfg: Config): Entry {
    Entry("proxies", Some(cfg.stcp.proxyName), Some("stcp"), Some(Decimal(cfg.port)), None, None, Some(cfg.stcp.secretKey))
  }

  predicate PlainVisitor(v: Visitor) {
    Plain("to-" + v.peer) && Plain(v.serverName) && (v.secretKey != "" ==> Plain(v.secretKey))
  }

  /** Notes and gaps after the settings of a section. */
  predicate Quiet(tail: seq<Line>) {
    forall i :: 0 <= i < |tail| ==> tail[i].Gap? || tail[i].Note?
  }

  /** A field of a printed section: what was printed for it, or nothing. */
  lemma {:induction false} FieldIsRead(body: seq<Line>, tail: seq<Line>, key: Key, kind: Kind)
    requires Near(body, key) && Quiet(tail)
    requires Lookup(body, key).Some? ==> GoodValue(Write(Lookup(body, key).value), kind)
    ensures Find(PrintAll(body + tail), Text(key), kind) ==
              if Lookup(body, key).Some? then Here(Write(Lookup(body, key).value), kind) else None
  {
    hide Text, Print, GoodValue, Here;
    assert PrintAll(body + tail) == PrintAll(body) + PrintAll(tail);
    FindIsLookup(body, PrintAll(tail), key, kind);
    LookupNever(tail, key);
    FindIsLookup(tail, [], key, kind);
    assert PrintAll(tail) + [] == PrintAll(tail);
  }

  lemma {:induction false} StringField(body: seq<Line>, tail: seq<Line>, key: Key, s: string)
    requires Near(body, key) && Quiet(tail) && Lookup(body, key) == Some(Quoted(s)) && Plain(s)
    ensures Find(PrintAll(body + tail), Text(key), Start) == Some(s)
  {
    hide Text, Plain, Here, Find;
    QuotedValue(s);
    FieldIsRead(body, tail, key, Start);
  }

  lemma {:induction false} NumberField(body: seq<Line>, tail: seq<Line>, key: Key, n: nat)
    requires Near(body, key) && Quiet(tail) && Lookup(body, key) == Some(Count(n))
    ensures Find(PrintAll(body + tail), Text(key), Digits) == Some(Decimal(n))
  {
    hide Text, Here, Find;
    DecimalValue(n);
    FieldIsRead(body, tail, key, Digits);
  }

  lemma VisitorNames(v: Visitor)
    ensures var b := VisitorBody(v);
            && Lookup(b, EntryName) == Some(Quoted("to-" + v.peer)) && Lookup(b, EntryType) == Some(Quoted("stcp"))
            && Lookup(b, ServerName) == Some(Quoted(v.serverName))
  {
    hide Lookup;
    var b := VisitorBody(v);
    LookupLater(b, EntryName, 0);
    LookupLater(b, EntryType, 1);
    LookupLater(b, ServerName, 2);
  }

  lemma VisitorPorts(v: Visitor)
    ensures var b := VisitorBody(v);
            && Lookup(b, LocalPort) == None && Lookup(b, BindPort) == Some(Count(v.bindPort))
            && Lookup(b, SecretKey) == if v.secretKey != "" then Some(Quoted(v.secretKey)) else None
  {
    hide Lookup;
    var b := VisitorBody(v);
    LookupLater(b, BindPort, if v.secretKey != "" then 5 else 4);
    if v.secretKey != "" { LookupLater(b, SecretKey, 3); } else { LookupNever(b, SecretKey); }
    LookupNever(b, LocalPort);
  }

  lemma ProxyNames(cfg: Config)
    ensures var b := ProxyBody(cfg);
            && Lookup(b, EntryName) == Some(Quoted(cfg.stcp.proxyName)) && Lookup(b, EntryType) == Some(Quoted("stcp"))
            && Lookup(b, ServerName) == None
  {
    hide Lookup;
    var b := ProxyBody(cfg);
    LookupLater(b, EntryName, 0);
    LookupLater(b, EntryType, 1);
    LookupNever(b, ServerName);
  }

  lemma ProxyPorts(cfg: Config)
    ensures var b := ProxyBody(cfg);
            && Lookup(b, LocalPort) == Some(Count(cfg.port)) && Lookup(b, BindPort) == None
            && Lookup(b, SecretKey) == Some(Quoted(cfg.stcp.secretKey))
  {
    hide Lookup;
    var b := ProxyBody(cfg);
    LookupLater(b, SecretKey, 2);
    LookupLater(b, LocalPort, 5);
    LookupNever(b, BindPort);
  }

  /** The section names and the one fixed value. */
  lemma Literals()
    ensures SectionKind(NameOf(Visitors) + "]]") == "visitors" && SectionKind(NameOf(Proxies) + "]]") == "proxies"
    ensures Plain("stcp")
  {
    hide SectionKind;
    KindIs("visitors");
    KindIs("proxies");
  }

  lemma FieldTexts()
    ensures Text(EntryName) == "name" && Text(EntryType) == "type" && Text(LocalPort) == "localPort"
    ensures Text(ServerName) == "serverName" && Text(BindPort) == "bindPort" && Text(SecretKey) == "secretKey"
  {
  }

  lemma KindIs(name: string)
    requires Trimmed(name + "]]")
    ensures SectionKind(name + "]]") == name
  {
    var h := name + "]]";
    TrimIff(h);
    assert h[|h| - 2..] == "]]" && h[..|h| - 2] == name;
  }

  lemma {:induction false} VisitorIsRead(cfg: Config, v: Visitor, tail: seq<Line>)
    requires PlainVisitor(v) && Quiet(tail)
    ensures EntryOf(PrintPart(Part(Visitors, VisitorBody(v) + tail))) == EntryOfVisitor(v)
  {
    hide VisitorBody, Quiet, Plain, Find, Lookup, Near, Text, NameOf, SectionKind, PrintAll;
    var body := VisitorBody(v);
    FieldsAreNear(cfg, v);
    VisitorNames(v);
    VisitorPorts(v);
    Literals();
    FieldTexts();
    StringField(body, tail, EntryName, "to-" + v.peer);
    StringField(body, tail, EntryType, "stcp");
    FieldIsRead(body, tail, LocalPort, Digits);
    StringField(body, tail, ServerName, v.serverName);
    NumberField(body, tail, BindPort, v.bindPort);
    if v.secretKey != "" {
      StringField(body, tail, SecretKey, v.secretKey);
    } else {
      FieldIsRead(body, tail, SecretKey, Start);
    }
    PartSplits(Part(Visitors, body + tail));
  }

  lemma {:induction false} ProxyIsRead(cfg: Config, tail: seq<Line>)
    requires Plain(cfg.stcp.proxyName) && Plain(cfg.stcp.secretKey) && Quiet(tail)
    ensures EntryOf(PrintPart(Part(Proxies, ProxyBody(cfg) + tail))) == EntryOfProxy(cfg)
  {
    hide ProxyBody, Quiet, Plain, Find, Lookup, Near, Text, NameOf, SectionKind, PrintAll;
    var body := ProxyBody(cfg);
    FieldsAreNear(cfg, Visitor("", "", "", "", 0, ""));
    ProxyNames(cfg);
    ProxyPorts(cfg);
    Literals();
    FieldTexts();
    StringField(body, tail, EntryName, cfg.stcp.proxyName);
    StringField(body, tail, EntryType, "stcp");
    NumberField(body, tail, LocalPort, cfg.port);
    FieldIsRead(body, tail, ServerName, Start);
    FieldIsRead(body, tail, BindPort, Digits);
    StringField(body, tail, SecretKey, cfg.stcp.secretKey);
    PartSplits(Part(Proxies, body + tail));
  }

  lemma PartSplits(part: Part)
    ensures PrintPart(part)[0] == NameOf(part.section) + "]]" && PrintPart(part)[1..] == PrintAll(part.body)
  {
  }

  // ---------------------------------------------------------------- the round trip

  function EntriesOfVisitors(visitors: seq<Visitor>): seq<Entry> {
    if visitors == [] then [] else [EntryOfVisitor(visitors[0])] + EntriesOfVisitors(visitors[1..])
  }

  lemma {:induction false} VisitorsAreEntries(cfg: Config, visitors: seq<Visitor>)
    requires forall i :: 0 <= i < |visitors| ==> PlainVisitor(visitors[i])
    ensures OfKind(PrintParts(VisitorParts(visitors)), Visitors) == EntriesOfVisitors(visitors)
    ensures OfKind(PrintParts(VisitorParts(visitors)), Proxies) == []
  {
    hide EntryOf, PlainVisitor, VisitorBody, PrintPart;
    if visitors != [] {
      VisitorIsRead(cfg, visitors[0], if |visitors| == 1 then [Gap] else []);
      VisitorsAreEntries(cfg, visitors[1..]);
    }
  }

  /** Everything stays on its line if the two texts that are not quoted do. */
  predicate CleanLine(line: Line) {
    line.Note? && line.remark.About? ==> OneLine(line.remark.name) && OneLine(line.remark.generated)
  }

  lemma {:induction false} CleanPrints(line: Line)
    requires CleanLine(line)
    ensures OneLine(Print(line))
  {
    match line
    case Gap =>
    case Note(remark) =>
      hide Comment;
      CommentIsClean(remark);
      assert OneLine("# ");
    case Set(key, term) =>
      TextIsGood(key);
      hide Text, Write;
      assert OneLine(Text(key)) && OneLine(" = ");
    case Header(section) => assert OneLine("[[proxies]]") && OneLine("[[visitors]]");
  }

  lemma CommentIsClean(remark: Remark)
    requires remark.About? ==> OneLine(remark.name) && OneLine(remark.generated)
    ensures OneLine(Comment(remark))
  {
    hide Comment;
    match remark
    case Banner => BannerIsClean();
    case About(name, generated) => AboutIsClean(name, generated);
    case Anonymous => AnonymousIsClean();
    case _ => SectionNotesAreClean();
  }

  lemma BannerIsClean()
    ensures OneLine(Comment(Banner))
  {
  }

  lemma AboutIsClean(name: string, generated: string)
    requires OneLine(name) && OneLine(generated)
    ensures OneLine(Comment(About(name, generated)))
  {
  }

  lemma AnonymousIsClean()
    ensures OneLine(Comment(Anonymous))
  {
  }

  lemma SectionNotesAreClean()
    ensures OneLine(Comment(Provider)) && OneLine(Comment(VisitorsFollow))
  {
  }

  predicate Clean(doc: seq<Line>) {
    forall i :: 0 <= i < |doc| ==> CleanLine(doc[i])
  }

  lemma {:induction false} VisitorDocIsClean(visitors: seq<Visitor>)
    ensures Clean(VisitorDoc(visitors))
  {
    hide OneLine;
    if visitors != [] { VisitorDocIsClean(visitors[1..]); }
  }

  lemma TopIsClean(cfg: Config, generated: string)
    requires OneLine(cfg.name) && OneLine(generated)
    ensures Clean(Top(cfg, generated))
  {
    hide OneLine;
  }

  lemma DocIsClean(cfg: Config, generated: string)
    requires OneLine(cfg.name) && OneLine(generated)
    ensures Clean(Doc(cfg, generated))
  {
    hide OneLine, Top, VisitorDoc, VisitorsFor;
    TopIsClean(cfg, generated);
    VisitorDocIsClean(VisitorsFor(cfg.peers));
  }

  predicate Readable(cfg: Config, generated: string) {
    && Plain(cfg.tunnel.serverAddr) && Plain(User(cfg)) && Plain(cfg.stcp.proxyName) && Plain(cfg.stcp.secretKey)
    && (forall i :: 0 <= i < |VisitorsFor(cfg.peers)| ==> PlainVisitor(VisitorsFor(cfg.peers)[i]))
    && OneLine(cfg.name) && OneLine(generated)
  }

  lemma TopTexts()
    ensures Text(ServerAddr) == "serverAddr" && Text(ServerPort) == "serverPort" && Text(UserName) == "user"
  {
  }

  /** The three top-level values. */
  lemma {:induction false} PicksAreRead(cfg: Config, generated: string, rest: seq<Line>)
    requires Plain(cfg.tunnel.serverAddr) && Plain(User(cfg))
    ensures var lines := PrintAll(Head(cfg.name, generated) + Server(cfg) + rest);
            && Pick(lines, "serverAddr") == Some(cfg.tunnel.serverAddr)
            && Pick(lines, "serverPort") == Some(Decimal(cfg.tunnel.serverPort))
            && Pick(lines, "user") == Some(User(cfg))
  {
    TopTexts();
    hide Text, Plain, Trim, Here, Lookup, Find, Print;
    var top := Head(cfg.name, generated) + Server(cfg);
    assert Near(top, ServerAddr) && Near(top, ServerPort) && Near(top, UserName);
    LookupLater(top, ServerAddr, 3);
    LookupLater(top, ServerPort, 4);
    LookupLater(top, UserName, 6);
    QuotedValue(cfg.tunnel.serverAddr);
    DecimalValue(cfg.tunnel.serverPort);
    QuotedValue(User(cfg));
    hide Head, Server, Near, GoodValue;
    assert PrintAll(top + rest) == PrintAll(top) + PrintAll(rest);
    FindIsLookup(top, PrintAll(rest), ServerAddr, WholeLine);
    FindIsLookup(top, PrintAll(rest), ServerPort, WholeLine);
    FindIsLookup(top, PrintAll(rest), UserName, WholeLine);
  }

  lemma {:induction false} EntriesAreRead(cfg: Config, generated: string)
    requires Readable(cfg, generated)
    ensures OfKind(Sections(PrintAll(Doc(cfg, generated))), Proxies) == [EntryOfProxy(cfg)]
    ensures OfKind(Sections(PrintAll(Doc(cfg, generated))), Visitors) == EntriesOfVisitors(VisitorsFor(cfg.peers))
  {
    hide EntryOf, Parts, PrintPart, VisitorParts, ProxyBody, Sections, Doc, Plain, PlainVisitor, EntriesOfVisitors, VisitorsFor;
    var visitors := VisitorsFor(cfg.peers);
    var tail := if visitors == [] then [] else [Gap, Note(VisitorsFollow)];
    SectionsPrint(Doc(cfg, generated));
    FileParts(cfg, generated);
    ProxyIsRead(cfg, tail);
    VisitorsAreEntries(cfg, visitors);
    var parts := [Part(Proxies, ProxyBody(cfg) + tail)] + VisitorParts(visitors);
    assert parts[1..] == VisitorParts(visitors);
    var sections := PrintParts(parts);
    assert sections[0] == PrintPart(parts[0]) && sections[1..] == PrintParts(VisitorParts(visitors));
  }

  /** Some texts may stand in the file: what the pattern reads back is what was printed. */
  lemma {:induction false} SummaryIsRead(cfg: Config, generated: string)
    requires Readable(cfg, generated)
    ensures Summarize(Split(Join(PrintAll(Doc(cfg, generated))))) ==
              Summary(Some(cfg.tunnel.serverAddr), Some(Decimal(cfg.tunnel.serverPort)), Some(User(cfg)),
                      [EntryOfProxy(cfg)], EntriesOfVisitors(VisitorsFor(cfg.peers)))
  {
    hide Doc, Head, Server, Pick, Sections, OfKind, Plain, PlainVisitor, VisitorsFor, EntriesOfVisitors, OneLine, Print, CleanLine;
    var lines := PrintAll(Doc(cfg, generated));
    DocIsClean(cfg, generated);
    forall i | 0 <= i < |lines|
      ensures OneLine(lines[i])
    {
      CleanPrints(Doc(cfg, generated)[i]);
    }
    var rest := DocSplits(cfg, generated);
    SplitJoin(lines);
    EntriesAreRead(cfg, generated);
    PicksAreRead(cfg, generated, rest);
  }

  /** The entry names this peer's tunnel end: its name, server name and port, and its key if it has one. */
  predicate Names(e: Entry, peer: Peer) {
    && peer.stcp.Some? && e.kind == "visitors" && e.type_ == Some("stcp") && e.localPort == None
    && e.name == Some("to-" + peer.name)
    && e.serverName == Some(peer.stcp.value.serverName)
    && e.bindPort == Some(Decimal(peer.stcp.value.visitorPort))
    && e.secretKey == if peer.stcp.value.secretKey != "" then Some(peer.stcp.value.secretKey) else None
  }

  lemma {:induction false} EntriesName(visitors: seq<Visitor>, i: nat)
    ensures |EntriesOfVisitors(visitors)| == |visitors|
    ensures i < |visitors| ==> EntriesOfVisitors(visitors)[i] == EntryOfVisitor(visitors[i])
  {
    if visitors != [] { EntriesName(visitors[1..], if i > 0 then i - 1 else 0); }
  }

  lemma ServedIsNamed(v: Visitor, peer: Peer)
    requires Serves(v, peer)
    ensures Names(EntryOfVisitor(v), peer)
  {
  }

  /** What the reader finds of a file: its server, its user, its own proxy, and one visitor for each reachable peer, in order. */
  ghost predicate Summarizes(summary: Summary, cfg: Config, places: seq<nat>) {
    && summary.serverAddr == Some(cfg.tunnel.serverAddr) && summary.serverPort == Some(Decimal(cfg.tunnel.serverPort))
    && summary.user == Some(if cfg.tunnel.user.Some? then cfg.tunnel.user.value else "dsh-link")
    && |summary.proxies| == 1 && summary.proxies[0].kind == "proxies" && summary.proxies[0].type_ == Some("stcp")
    && summary.proxies[0].name == Some(cfg.stcp.proxyName) && summary.proxies[0].secretKey == Some(cfg.stcp.secretKey)
    && summary.proxies[0].localPort == Some(Decimal(cfg.port)) && summary.proxies[0].serverName == summary.proxies[0].bindPort == None
    && AreReachable(places, cfg.peers) && |summary.visitors| == |places|
    && forall k :: 0 <= k < |places| ==> places[k] < |cfg.peers| && Names(summary.visitors[k], cfg.peers[places[k]])
  }

  lemma {:induction false} FileReadsBack(cfg: Config, generated: string) returns (places: seq<nat>)
    requires Readable(cfg, generated)
    ensures Summarizes(Summarize(Split(Join(PrintAll(Doc(cfg, generated))))), cfg, places)
  {
    hide Doc, Readable, Summarize, Join, AreReachable, Names, Serves, EntryOfVisitor, EntriesOfVisitors, VisitorsFor;
    SummaryIsRead(cfg, generated);
    places := VisitorsServe(cfg.peers);
    var visitors := VisitorsFor(cfg.peers);
    EntriesName(visitors, 0);
    forall k | 0 <= k < |places|
      ensures Names(EntriesOfVisitors(visitors)[k], cfg.peers[places[k]])
    {
      EntriesName(visitors, k);
      ServedIsNamed(visitors[k], cfg.peers[places[k]]);
    }
  }

  lemma DocSplits(cfg: Config, generated: string) returns (rest: seq<Line>)
    ensures Doc(cfg, generated) == Head(cfg.name, generated) + Server(cfg) + rest && Doc(cfg, generated) != []
  {
    hide Server, Auth, Services, ProxyBody, VisitorPart, VisitorsFor;
    rest := Auth(cfg.tunnel.token) + Services(cfg) + [Header(Proxies)] + ProxyBody(cfg) + VisitorPart(VisitorsFor(cfg.peers));
  }

  /** Decimal notation names its number, so the ports are recovered too. */
  function Parse(s: string): nat {
    if s == "" then 0
    else 10 * Parse(s[..|s| - 1]) + if '0' <= s[|s| - 1] <= '9' then s[|s| - 1] as nat - '0' as nat else 0
  }

  lemma {:induction false} DecimalParses(n: nat)
    ensures Parse(Decimal(n)) == n
  {
    if n < 10 {
      assert [Digit(n)][..0] == "";
      DigitParses(n);
    } else {
      DecimalParses(n / 10);
      DigitParses(n % 10);
      assert Decimal(n)[..|Decimal(n)| - 1] == Decimal(n / 10);
    }
  }

  lemma DigitParses(d: nat)
    requires d < 10
    ensures Digit(d) as nat - '0' as nat == d
  {
  }
}
