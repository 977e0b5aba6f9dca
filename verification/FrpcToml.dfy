/** The frpc.toml that a node writes and reads back (tunnel.mjs). */
module FrpcToml {
  import opened Options
  import opened TomlText

  /** A peer's tunnel end; a port of 0 or an empty name is not set. */
  datatype PeerStcp = PeerStcp(serverName: string, secretKey: string, visitorPort: nat)

  datatype Peer = Peer(name: string, stcp: Option<PeerStcp>, url: Option<string>)

  datatype Tunnel = Tunnel(serverAddr: string, serverPort: nat, user: Option<string>, token: string, tls: bool, adminPort: nat, logFile: string)

  datatype Identity = Identity(proxyName: string, secretKey: string)

  datatype Config = Config(name: string, port: nat, tunnel: Tunnel, stcp: Identity, peers: seq<Peer>)

  datatype Visitor = Visitor(peer: string, serverName: string, secretKey: string, bindAddr: string, bindPort: nat, url: string)

  datatype Error = NoServer | NoIdentity

  datatype Printed = Toml(text: string) | Refused(error: Error)

  // ---------------------------------------------------------------- the printer

  function Digit(d: nat): (c: char)
    requires d < 10
    ensures '0' <= c <= '9'
  {
    "0123456789"[d]
  }

  function Decimal(n: nat): (s: string)
    ensures s != "" && forall i :: 0 <= i < |s| ==> '0' <= s[i] <= '9'
  {
    if n < 10 then [Digit(n)] else Decimal(n / 10) + [Digit(n % 10)]
  }

  function Hex(d: nat): (c: char)
    requires d < 16
    ensures '0' <= c <= 'f'
  {
    "0123456789abcdef"[d]
  }

  /** One character as JSON.stringify writes it. */
  function Escape(c: char): (r: string)
    ensures r == [c] || (r != "" && r[0] == '\\' && '!' <= r[|r| - 1] <= '~')
    ensures OneLine(r) && (c != '"' ==> '"' !in r)
  {
    if c == '"' then "\\\"" else if c == '\\' then "\\\\"
    else if c == '\n' then "\\n" else if c == '\r' then "\\r" else if c == '\t' then "\\t"
    else if c == '\U{08}' then "\\b" else if c == '\U{0C}' then "\\f"
    else if c < ' ' then ['\\', 'u', '0', '0', Hex(c as int / 16), Hex(c as int % 16)]
    else [c]
  }

  function EscapeAll(s: string): (r: string)
    ensures OneLine(r)
  {
    if s == "" then "" else Escape(s[0]) + EscapeAll(s[1..])
  }

  /** tomlString: however odd the string, its printed form stays on one line. */
  function Quote(s: string): (r: string)
    ensures OneLine(r)
  {
    "\"" + EscapeAll(s) + "\""
  }

  const LOOPBACK: string := "127.0.0.1"

  /** A peer without a url of its own is reached through the visitor's port. */
  function VisitorTo(peer: Peer, stcp: PeerStcp): Visitor {
    Visitor(peer.name, stcp.serverName, stcp.secretKey, LOOPBACK, stcp.visitorPort,
            peer.url.Or("http://" + LOOPBACK + ":" + Decimal(stcp.visitorPort)))
  }

  predicate IsReachable(peer: Peer)
    ensures IsReachable(peer) ==> peer.stcp.Some?
  {
    peer.stcp.Some? && peer.stcp.value.serverName != "" && peer.stcp.value.visitorPort != 0
  }

  function VisitorsFor(peers: seq<Peer>): seq<Visitor> {
    if peers == [] then []
    else (if IsReachable(peers[0]) then [VisitorTo(peers[0], peers[0].stcp.value)] else []) + VisitorsFor(peers[1..])
  }

  function User(cfg: Config): string {
    cfg.tunnel.user.Or("dsh-link")
  }

  /** The settings that the file makes. */
  datatype Key =
    | ServerAddr | ServerPort | UserName | LoginFailExit
    | AuthMethod | AuthToken | AuthScopes
    | TlsEnable | WebAddr | WebPort | WebPprof
    | LogTo | LogLevel | LogMaxDays
    | EntryName | EntryType | SecretKey | AllowedUsers | LocalIP | LocalPort | UseEncryption | UseCompression
    | ServerName | BindAddr | BindPort

  function Text(k: Key): string {
    match k
    case ServerAddr => "serverAddr" case ServerPort => "serverPort" case UserName => "user" case LoginFailExit => "loginFailExit"
    case AuthMethod => "auth.method" case AuthToken => "auth.token" case AuthScopes => "auth.additionalScopes"
    case TlsEnable => "transport.tls.enable" case WebAddr => "webServer.addr" case WebPort => "webServer.port"
    case WebPprof => "webServer.pprofEnable" case LogTo => "log.to" case LogLevel => "log.level" case LogMaxDays => "log.maxDays"
    case EntryName => "name" case EntryType => "type" case SecretKey => "secretKey" case AllowedUsers => "allowUsers"
    case LocalIP => "localIP" case LocalPort => "localPort" case UseEncryption => "transport.useEncryption"
    case UseCompression => "transport.useCompression" case ServerName => "serverName" case BindAddr => "bindAddr" case BindPort => "bindPort"
  }

  datatype Section = Proxies | Visitors

  function NameOf(section: Section): string {
    match section
    case Proxies => "proxies"
    case Visitors => "visitors"
  }

  /** An array of quoted strings. */
  function Quotes(items: seq<string>): (r: string)
    ensures OneLine(r)
  {
    if items == [] then "" else if |items| == 1 then Quote(items[0]) else Quote(items[0]) + ", " + Quotes(items[1..])
  }

  function List(items: seq<string>): (r: string)
    ensures OneLine(r)
  {
    "[" + Quotes(items) + "]"
  }

  /** The value of a setting. */
  datatype Term = Quoted(text: string) | Count(n: nat) | Flag(on: bool) | Words(items: seq<string>)

  function Write(term: Term): (r: string)
    ensures OneLine(r)
  {
    match term
    case Quoted(text) => Quote(text)
    case Count(n) => Decimal(n)
    case Flag(on) => if on then "true" else "false"
    case Words(items) => List(items)
  }

  datatype Remark = Banner | About(name: string, generated: string) | Anonymous | Provider | VisitorsFollow

  /** Written in short pieces, so that CommentIsClean can look through each of them for a line end. */
  function Comment(remark: Remark): string {
    match remark
    case Banner => "frpc.toml — generated by " + "dsh-link. Edit " + "dshlink.config.json " + "instead of this file."
    case About(name, generated) => "node: " + name + "  generated: " + generated
    case Anonymous => "auth.token is unset " + "(frps must accept " + "anonymous clients)"
    case Provider => "--- provider: publish " + "this node's dsh-link " + "HTTP API privately ---"
    case VisitorsFollow => "--- visitors: local " + "ports that reach a peer " + "through frps ---"
  }

  /** One line of the file. */
  datatype Line = Gap | Note(remark: Remark) | Set(key: Key, term: Term) | Header(section: Section)

  function Print(line: Line): string {
    match line
    case Gap => ""
    case Note(remark) => "# " + Comment(remark)
    case Set(key, term) => Text(key) + " = " + Write(term)
    case Header(section) => "[[" + NameOf(section) + "]]"
  }

  function PrintAll(doc: seq<Line>): (r: seq<string>)
    ensures |r| == |doc| && forall i :: 0 <= i < |r| ==> r[i] == Print(doc[i])
  {
    seq(|doc|, i requires 0 <= i < |doc| => Print(doc[i]))
  }

  function Head(name: string, generated: string): seq<Line> {
    [Note(Banner), Note(About(name, generated)), Gap]
  }

  function Server(cfg: Config): seq<Line> {
    [ Set(ServerAddr, Quoted(cfg.tunnel.serverAddr)), Set(ServerPort, Count(cfg.tunnel.serverPort)), Gap,
      Set(UserName, Quoted(User(cfg))), Set(LoginFailExit, Flag(false)), Gap ]
  }

  function Auth(token: string): seq<Line> {
    if token != "" then
      [Set(AuthMethod, Quoted("token")), Set(AuthToken, Quoted(token)), Set(AuthScopes, Words(["HeartBeats", "NewWorkConns"]))]
    else
      [Note(Anonymous), Set(AuthMethod, Quoted("token"))]
  }

  function Services(cfg: Config): seq<Line> {
    [ Set(TlsEnable, Flag(cfg.tunnel.tls)), Gap,
      Set(WebAddr, Quoted("127.0.0.1")), Set(WebPort, Count(cfg.tunnel.adminPort)), Set(WebPprof, Flag(false)), Gap,
      Set(LogTo, Quoted(cfg.tunnel.logFile)), Set(LogLevel, Quoted("info")), Set(LogMaxDays, Count(7)), Gap,
      Note(Provider) ]
  }

  function ProxyBody(cfg: Config): seq<Line> {
    [ Set(EntryName, Quoted(cfg.stcp.proxyName)), Set(EntryType, Quoted("stcp")), Set(SecretKey, Quoted(cfg.stcp.secretKey)),
      Set(AllowedUsers, Words(if User(cfg) == "dsh-link" then [User(cfg)] else [User(cfg), "dsh-link"])),
      Set(LocalIP, Quoted("127.0.0.1")), Set(LocalPort, Count(cfg.port)),
      Set(UseEncryption, Flag(true)), Set(UseCompression, Flag(false)) ]
  }

  function VisitorBody(v: Visitor): seq<Line> {
    [Set(EntryName, Quoted("to-" + v.peer)), Set(EntryType, Quoted("stcp")), Set(ServerName, Quoted(v.serverName))] +
    (if v.secretKey != "" then [Set(SecretKey, Quoted(v.secretKey))] else []) +
    [ Set(BindAddr, Quoted("127.0.0.1")), Set(BindPort, Count(v.bindPort)),
      Set(UseEncryption, Flag(true)), Set(UseCompression, Flag(false)) ]
  }

  function VisitorDoc(visitors: seq<Visitor>): seq<Line> {
    if visitors == [] then []
    else [Header(Visitors)] + VisitorBody(visitors[0]) + [Gap] + VisitorDoc(visitors[1..])
  }

  function Top(cfg: Config, generated: string): seq<Line> {
    Head(cfg.name, generated) + Server(cfg) + Auth(cfg.tunnel.token) + Services(cfg)
  }

  function VisitorPart(visitors: seq<Visitor>): seq<Line> {
    if visitors == [] then [] else [Gap, Note(VisitorsFollow)] + VisitorDoc(visitors)
  }

  function Doc(cfg: Config, generated: string): seq<Line> {
    Top(cfg, generated) + [Header(Proxies)] + ProxyBody(cfg) + VisitorPart(VisitorsFor(cfg.peers))
  }

  lemma VisitorsStep(peers: seq<Peer>, i: nat)
    requires i < |peers|
    ensures VisitorsFor(peers[i..]) == (if IsReachable(peers[i]) then [VisitorTo(peers[i], peers[i].stcp.value)] else []) + VisitorsFor(peers[i + 1..])
  {
    hide VisitorTo;
    assert peers[i..][0] == peers[i] && peers[i..][1..] == peers[i + 1..];
  }

  /** These are the places of the peers with a server name and a port, in order. */
  ghost predicate AreReachable(places: seq<nat>, peers: seq<Peer>) {
    && (forall i, j :: 0 <= i < j < |places| ==> places[i] < places[j])
    && (forall k :: 0 <= k < |places| ==> places[k] < |peers|)
    && forall i: nat :: i < |peers| ==>
         (i in places <==> peers[i].stcp.Some? && peers[i].stcp.value.serverName != "" && peers[i].stcp.value.visitorPort != 0)
  }

  /** A local port for this peer's tunnel end, with the peer's own name, server name, key and port. */
  predicate Serves(v: Visitor, peer: Peer) {
    && peer.stcp.Some? && v.peer == peer.name
    && v.serverName == peer.stcp.value.serverName && v.secretKey == peer.stcp.value.secretKey
    && v.bindAddr == "127.0.0.1" && v.bindPort == peer.stcp.value.visitorPort
    && v.url == if peer.url.Some? then peer.url.value else "http://127.0.0.1:" + Decimal(peer.stcp.value.visitorPort)
  }

  ghost predicate Serve(visitors: seq<Visitor>, peers: seq<Peer>, places: seq<nat>) {
    && AreReachable(places, peers) && |visitors| == |places|
    && forall k :: 0 <= k < |visitors| ==> places[k] < |peers| && Serves(visitors[k], peers[places[k]])
  }

  lemma VisitorServes(peer: Peer)
    ensures IsReachable(peer) <==> peer.stcp.Some? && peer.stcp.value.serverName != "" && peer.stcp.value.visitorPort != 0
    ensures IsReachable(peer) ==> Serves(VisitorTo(peer, peer.stcp.value), peer)
  {
  }

  lemma {:induction false} VisitorsEnd(peers: seq<Peer>)
    requires peers != []
    ensures var n := |peers| - 1;
            VisitorsFor(peers) == VisitorsFor(peers[..n]) + if IsReachable(peers[n]) then [VisitorTo(peers[n], peers[n].stcp.value)] else []
  {
    hide VisitorTo, IsReachable, VisitorsFor;
    var n := |peers| - 1;
    VisitorsStep(peers, 0);
    assert peers[0..] == peers;
    if n == 0 {
      NoVisitors(peers[1..]);
      NoVisitors(peers[..n]);
    } else {
      VisitorsEnd(peers[1..]);
      VisitorsStep(peers[..n], 0);
      assert peers[..n][0..] == peers[..n] && peers[..n][1..] == peers[1..][..n - 1];
      assert peers[1..][n - 1] == peers[n] && peers[..n][0] == peers[0];
    }
  }

  lemma {:induction false} OneMorePeer(places: seq<nat>, peers: seq<Peer>)
    requires peers != [] && AreReachable(places, peers[..|peers| - 1])
    ensures var n: nat := |peers| - 1; AreReachable(places + if IsReachable(peers[n]) then [n] else [], peers)
  {
    var n: nat := |peers| - 1;
    assert forall i :: 0 <= i < n ==> peers[..n][i] == peers[i];
  }

  /** The visitors are those of exactly the reachable peers, in the order of the peers. */
  lemma {:induction false} VisitorsServe(peers: seq<Peer>) returns (places: seq<nat>)
    ensures Serve(VisitorsFor(peers), peers, places)
  {
    hide AreReachable, Serves, VisitorTo, IsReachable, VisitorsFor;
    places := [];
    if peers == [] {
      NoVisitors(peers);
    } else {
      var n: nat := |peers| - 1;
      var before := VisitorsServe(peers[..n]);
      VisitorsEnd(peers);
      VisitorServes(peers[n]);
      OneMorePeer(before, peers);
      places := before + if IsReachable(peers[n]) then [n] else [];
    }
  }

  method FindVisitors(peers: seq<Peer>) returns (visitors: seq<Visitor>)
    ensures visitors == VisitorsFor(peers)
    ensures exists places :: Serve(visitors, peers, places)
  {
    hide VisitorTo, VisitorsFor, IsReachable, Serve;
    visitors := [];
    assert peers[0..] == peers;
    for i := 0 to |peers|
      invariant visitors + VisitorsFor(peers[i..]) == VisitorsFor(peers)
    {
      VisitorsStep(peers, i);
      if IsReachable(peers[i]) {
        visitors := visitors + [VisitorTo(peers[i], peers[i].stcp.value)];
      }
    }
    assert VisitorsFor(peers[|peers|..]) == [] by { NoVisitors(peers[|peers|..]); }
    var places := VisitorsServe(peers);
  }

  lemma NoVisitors(peers: seq<Peer>)
    requires peers == []
    ensures VisitorsFor(peers) == [] && AreReachable([], peers)
  {
  }

  method FrpConfigToml(cfg: Config, generated: string) returns (printed: Printed)
    ensures printed == if cfg.tunnel.serverAddr == "" then Refused(NoServer)
                       else if cfg.stcp.proxyName == "" || cfg.stcp.secretKey == "" then Refused(NoIdentity)
                       else Toml(Join(PrintAll(Doc(cfg, generated))))
  {
    hide Join, Print, Top, ProxyBody, VisitorBody, Serve, VisitorsFor;
    if cfg.tunnel.serverAddr == "" {
      return Refused(NoServer);
    }
    if cfg.stcp.proxyName == "" || cfg.stcp.secretKey == "" {
      return Refused(NoIdentity);
    }
    var lines := Top(cfg, generated) + [Header(Proxies)] + ProxyBody(cfg);
    var visitors := FindVisitors(cfg.peers);
    if |visitors| > 0 {
      lines := lines + [Gap, Note(VisitorsFollow)];
      for i := 0 to |visitors|
        invariant lines + VisitorDoc(visitors[i..]) == Doc(cfg, generated)
      {
        assert visitors[i..][0] == visitors[i] && visitors[i..][1..] == visitors[i + 1..];
        lines := lines + ([Header(Visitors)] + VisitorBody(visitors[i]) + [Gap]);
      }
    }
    assert lines == Doc(cfg, generated);
    printed := Toml(Join(PrintAll(lines)));
  }

  // ---------------------------------------------------------------- the reader

  datatype Entry = Entry(
    kind: string, name: Option<string>, type_: Option<string>, localPort: Option<string>,
    serverName: Option<string>, bindPort: Option<string>, secretKey: Option<string>)

  datatype Summary = Summary(serverAddr: Option<string>, serverPort: Option<string>, user: Option<string>, proxies: seq<Entry>, visitors: seq<Entry>)

  function Pick(lines: seq<string>, key: string): Option<string> {
    match Find(lines, key, WholeLine)
    case None => None
    case Some(v) => Some(Trim(v))
  }

  /** A section header may be indented; the blank lines before it belong to the separator. */
  function HeaderHere(lines: seq<string>): Option<seq<string>> {
    if lines == [] then None
    else
      var c := Skip(Cursor(lines[0], lines[1..]));
      if StartsWith(c.rest, "[[") then Some([c.rest[2..]] + c.more) else None
  }

  /** The lines before the next section header, and what follows its brackets. */
  function Cut(lines: seq<string>): (r: (seq<string>, Option<seq<string>>))
    ensures r.1.Some? ==> TextSize(r.1.value) < TextSize(lines)
  {
    if lines == [] then ([], None)
    else
      HeaderIsShorter(lines);
      if HeaderHere(lines).Some? then ([], HeaderHere(lines))
      else
        var (before, after) := Cut(lines[1..]);
        ([lines[0]] + before, after)
  }

  function TextSize(lines: seq<string>): nat {
    |lines| + Total(lines)
  }

  lemma HeaderIsShorter(lines: seq<string>)
    requires lines != []
    ensures HeaderHere(lines).Some? ==> TextSize(HeaderHere(lines).value) < TextSize(lines)
  {
    var c := Cursor(lines[0], lines[1..]);
    assert Weight(Skip(c)) <= Weight(c);
    var s := Skip(c);
    if StartsWith(s.rest, "[[") {
      assert ([s.rest[2..]] + s.more)[1..] == s.more;
    }
  }

  /** text.split at the section headers, without the piece before the first one; a section starts with the rest of its header's line. */
  function Sections(lines: seq<string>): seq<seq<string>>
    decreases TextSize(lines)
  {
    match Cut(lines).1
    case None => []
    case Some(after) => if after == [] then [] else [[after[0]] + Cut(after[1..]).0] + Sections(after[1..])
  }

  function SectionKind(header: string): string {
    var h := Trim(header);
    if |h| >= 2 && h[|h| - 2..] == "]]" then h[..|h| - 2] else h
  }

  function EntryOf(section: seq<string>): Entry {
    if section == [] then Entry("", None, None, None, None, None, None)
    else
      var body := section[1..];
      Entry(SectionKind(section[0]), Find(body, "name", Start), Find(body, "type", Start), Find(body, "localPort", Digits),
            Find(body, "serverName", Start), Find(body, "bindPort", Digits), Find(body, "secretKey", Start))
  }

  function OfKind(sections: seq<seq<string>>, section: Section): seq<Entry> {
    if sections == [] then []
    else
      (if EntryOf(sections[0]).kind == NameOf(section) then [EntryOf(sections[0])] else []) + OfKind(sections[1..], section)
  }

  lemma OfKindStep(sections: seq<seq<string>>, i: nat, section: Section)
    requires i < |sections|
    ensures OfKind(sections[i..], section) ==
              (if EntryOf(sections[i]).kind == NameOf(section) then [EntryOf(sections[i])] else []) + OfKind(sections[i + 1..], section)
  {
    hide EntryOf, NameOf;
    assert sections[i..][0] == sections[i] && sections[i..][1..] == sections[i + 1..];
  }

  lemma OfKindEnds(sections: seq<seq<string>>, section: Section)
    ensures OfKind(sections[|sections|..], section) == []
  {
  }

  function Summarize(lines: seq<string>): Summary {
    var sections := Sections(lines);
    Summary(Pick(lines, "serverAddr"), Pick(lines, "serverPort"), Pick(lines, "user"), OfKind(sections, Proxies), OfKind(sections, Visitors))
  }

  method ParseFrpcTomlSummary(toml: string) returns (summary: Summary)
    ensures summary == Summarize(Split(toml))
  {
    hide Pick, Sections, EntryOf, OfKind;
    var lines := Split(toml);
    var sections := Sections(lines);
    var proxies: seq<Entry>, visitors: seq<Entry> := [], [];
    assert sections[0..] == sections;
    for i := 0 to |sections|
      invariant proxies + OfKind(sections[i..], Proxies) == OfKind(sections, Proxies)
      invariant visitors + OfKind(sections[i..], Visitors) == OfKind(sections, Visitors)
    {
      OfKindStep(sections, i, Proxies);
      OfKindStep(sections, i, Visitors);
      var entry := EntryOf(sections[i]);
      if entry.kind == "proxies" {
        proxies := proxies + [entry];
      } else if entry.kind == "visitors" {
        visitors := visitors + [entry];
      }
    }
    OfKindEnds(sections, Proxies);
    OfKindEnds(sections, Visitors);
    summary := Summary(Pick(lines, "serverAddr"), Pick(lines, "serverPort"), Pick(lines, "user"), proxies, visitors);
  }
}
