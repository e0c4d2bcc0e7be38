/** A hysteria2 inbound reaches clients twice: as a share link and as an outbound of the JSON
subscription. Both describe the same outbound. */
module ViewAgreement {
  import opened Model
  import opened Text
  import opened Urls
  import opened Queries
  import opened Links
  import opened LinksRoundTrip
  import opened LinksTheorems
  import opened Views
  import LP = LinksParsed

  // ---------- reading JSON the way the link printer does ----------

  function StrAt(m: JMap, k: string): Option<string> {
    if k in m && m[k].JStr? then Some(m[k].s) else None
  }

  function NatAt(m: JMap, k: string): Option<nat> {
    if k in m && m[k].JNum? && m[k].n >= 0 then Some(m[k].n) else None
  }

  function Texts(items: seq<Json>): seq<string> {
    seq(|items|, i requires 0 <= i < |items| => if items[i].JStr? then items[i].s else "")
  }

  function TextsAt(m: JMap, k: string): Option<seq<string>> {
    if k in m && m[k].JList? then Some(Texts(m[k].items)) else None
  }

  function ReadReality(m: JMap): Option<Reality> {
    match ObjAt(m, "reality")
    case None => None
    case Some(r) => Some(Reality(BoolAt(r, "enabled") == Some(true), StrAt(r, "public_key"), StrAt(r, "short_id")))
  }

  function ReadUtls(m: JMap): Option<Utls> {
    match ObjAt(m, "utls")
    case None => None
    case Some(u) => Some(Utls(BoolAt(u, "enabled") == Some(true), StrAt(u, "fingerprint")))
  }

  function ReadTls(m: JMap): Tls {
    Tls(BoolAt(m, "enabled") == Some(true), ReadReality(m), BoolAt(m, "insecure"), BoolAt(m, "disable_sni"),
        ReadUtls(m), StrAt(m, "server_name"), TextsAt(m, "alpn"))
  }

  function ReadObfs(m: JMap): Option<Obfuscation> {
    match ObjAt(m, "obfs") case None => None case Some(o) => Some(Obfuscation(StrAt(o, "type"), StrAt(o, "password")))
  }

  function ReadOut(out: JMap): OutJson {
    OutJson(TextsAt(out, "server_ports"), StrAt(out, "udp_relay_mode"))
  }

  function ReadInbound(options: JMap, out: JMap): InboundOptions {
    InboundOptions(NatAt(options, "up_mbps"), NatAt(options, "down_mbps"), ReadObfs(options),
            BoolAt(options, "tcp_fast_open") == Some(true), StrAt(options, "congestion_control"),
            Transport(None, None, None, None, None, None), Some(ReadOut(out)))
  }

  function ReadUser(config: JMap): UserConfig {
    UserConfig(StrAt(config, "password"), StrAt(config, "uuid"), StrAt(config, "flow"))
  }

  // ---------- agreement ----------

  ghost predicate SameRate(link: Option<int>, json: Option<Json>) {
    link == match json case Some(JNum(n)) => (if n > 0 then Some(n) else None) case _ => None
  }

  /** The items as they stand; a missing or empty list is no list. */
  ghost predicate SameList(link: Option<seq<string>>, json: Option<Json>) {
    match json
    case None => link.None?
    case Some(JNull) => link.None?
    case Some(JList(items)) => link == PresentList(Some(Texts(items)))
    case Some(_) => false
  }

  ghost predicate SameObfs(link: Option<string>, json: Option<Json>) {
    match json
    case None => link.None?
    case Some(JNull) => link.None?
    case Some(JObj(o)) => StrAt(o, "type") == Some("salamander") && link == Some(OrEmpty(StrAt(o, "password")))
    case Some(_) => false
  }

  /** The TLS fields both views carry. */
  ghost predicate SameTls(link: OutTls, json: JMap) {
    && (link.enabled <==> BoolAt(json, "enabled") == Some(true))
    && link.serverName == Present(StrAt(json, "server_name"))
    && SameList(link.alpn, At(json, "alpn"))
    && (link.insecure <==> BoolAt(json, "insecure") == Some(true))
    && (link.disableSni <==> BoolAt(json, "disable_sni") == Some(true))
    && link.utls == UtlsStored(ReadUtls(json))
  }

  ghost predicate SameOutbound(link: Outbound, json: JMap) {
    && link.Hysteria2?
    && At(json, "type") == Some(JStr("hysteria2"))
    && At(json, "tag") == Some(JStr(link.tag))
    && At(json, "server") == Some(JStr(link.server)) && At(json, "server_port") == Some(JNum(link.serverPort))
    && At(json, "password") == Some(JStr(link.password))
    && SameRate(link.upMbps, At(json, "up_mbps")) && SameRate(link.downMbps, At(json, "down_mbps"))
    && SameObfs(link.obfs, At(json, "obfs"))
    && SameList(link.serverPorts, At(json, "server_ports"))
    && ObjAt(json, "tls").Some? && SameTls(link.tls, ObjAt(json, "tls").value)
  }

  // ---------- what both views can say ----------

  /** A list or nothing; a single text is a list for the core but nothing for the link. */
  predicate ListOrNone(json: Option<Json>) {
    json.None? || json.value.JNull? || json.value.JList?
  }

  /** TLS is on, uTLS is on exactly when there is a fingerprint, and ALPN is a list. */
  predicate PlainTls(tls: JMap) {
    BoolAt(tls, "enabled") == Some(true) && UtlsPlain(ReadUtls(tls)) && ListOrNone(At(tls, "alpn"))
  }

  /** A list of port ranges written with a colon; the parser rewrites a dash. */
  predicate PlainPorts(json: Option<Json>) {
    ListOrNone(json) && (json.Some? && json.value.JList? ==> forall x :: x in Texts(json.value.items) ==> '-' !in x)
  }

  /** No obfuscation, or the one kind there is. */
  predicate PlainObfs(json: Option<Json>) {
    json.None? || json.value.JNull? || (json.value.JObj? && StrAt(json.value.fields, "type") == Some("salamander"))
  }

  /** The stored rows that produce both views; `merged`, `out` and `json` are built by Views, and
      `prepared` is the TLS the link is printed from. */
  datatype Source = Source(
    before: JMap, options: JMap, server: JMap, client: JMap, config: JMap, tag: string, hostname: string,
    pick: nat, linkPick: nat, keepFlow: bool)

  datatype Built = Built(merged: JMap, out: JMap, json: JMap, prepared: JMap)

  ghost predicate BuiltFrom(b: Built, s: Source) {
    && (forall k :: At(b.merged, k) == MergedTlsAt(s.server, s.client, s.pick, k))
    && (forall k :: At(b.out, k) == FilledAt(s.before, s.options, Some(b.merged), s.tag, s.hostname, k))
    && (forall k :: At(b.json, k) == OutboundAt(b.out, s.config, s.keepFlow, k))
    && (forall k :: At(b.prepared, k) == PreparedTlsAt(s.server, s.client, s.linkPick, k))
  }

  const RESERVED := {"type", "tag", "server", "server_port", "up_mbps", "down_mbps", "obfs", "tls", "server_ports"}

  ghost predicate WholeRate(options: JMap, k: string) {
    k in options ==> options[k].JNum? && 0 <= options[k].n
  }

  function LinkAddr(s: Source, b: Built, port: nat): Addr {
    Addr(s.hostname, port, s.tag, Some(ReadTls(b.prepared)))
  }

  /** One hysteria2 inbound with a TLS profile, no Reality and no extra addresses; a password and no field
      of the outbound itself among the client's settings. */
  ghost predicate Plain(s: Source, b: Built, port: nat) {
    && At(s.options, "listen_port") == Some(JNum(port))
    && WholeRate(s.options, "up_mbps") && WholeRate(s.options, "down_mbps")
    && StrAt(s.config, "password").Some? && (forall k :: k in RESERVED ==> k !in s.config)
    && "reality" !in s.server && "reality" !in s.client
    && UserSafe(StrAt(s.config, "password").value)
    && SafeAddr(LinkAddr(s, b, port)) && SafeHy2(ReadInbound(s.options, b.out), ReadOut(b.out))
  }

  /** Nothing in the stored rows that only one of the two views can say. */
  ghost predicate Expressible(s: Source, b: Built) {
    PlainTls(b.merged) && PlainPorts(At(b.out, "server_ports")) && PlainObfs(At(s.options, "obfs"))
  }

  lemma TlsKeys()
    ensures forall k :: k in {"enabled", "server_name", "alpn", "insecure", "disable_sni", "utls"} ==>
              k != "reality" && k != "ech" && (k in SHARED <==> k in LINKED)
  {
    assert |"reality"| == 7 && |"enabled"| == 7 && "reality"[0] != "enabled"[0];
    assert |"insecure"| == 8 && |"disable_sni"| == 11 && |"utls"| == 4 && |"server_name"| == 11 && |"alpn"| == 4;
    assert "utls"[0] != "alpn"[0] && "disable_sni"[0] != "server_name"[0] && |"ech"| == 3;
    assert |"min_version"| == 11 && |"max_version"| == 11 && |"certificate"| == 11 && |"cipher_suites"| == 13;
    assert "disable_sni"[0] != "min_version"[0] && "disable_sni"[0] != "max_version"[0]
           && "disable_sni"[0] != "certificate"[0];
  }

  lemma SameTlsField(s: Source, b: Built, k: string)
    requires BuiltFrom(b, s)
    requires k in {"enabled", "server_name", "alpn", "insecure", "disable_sni", "utls"}
    ensures At(b.merged, k) == At(b.prepared, k)
  {
    hide SHARED, LINKED, RealityClient, EchClient, RealityLink;
    TlsKeys();
    assert At(b.merged, k) == MergedTlsAt(s.server, s.client, s.pick, k);
    assert At(b.prepared, k) == PreparedTlsAt(s.server, s.client, s.linkPick, k);
  }

  lemma NoReality(s: Source, b: Built)
    requires BuiltFrom(b, s) && "reality" !in s.server && "reality" !in s.client
    ensures !RealityOn(ReadTls(b.prepared))
  {
    assert At(b.prepared, "reality") == PreparedTlsAt(s.server, s.client, s.linkPick, "reality");
    NotLinked();
  }

  lemma ListAgrees(m: JMap, k: string)
    ensures SameList(PresentList(TextsAt(m, k)), At(m, k)) <==> ListOrNone(At(m, k))
  {
  }

  lemma UtlsAgrees(utls: Option<Utls>)
    ensures UtlsMeaning(Present(match utls case None => None case Some(u) => u.fingerprint)) == UtlsStored(utls)
            <==> UtlsPlain(utls)
  {
  }

  /** Without Reality the two TLS views agree if and only if TLS is on, uTLS is on exactly when there is
      a fingerprint, and ALPN is a list. */
  lemma TlsAgrees(s: Source, b: Built)
    requires BuiltFrom(b, s) && "reality" !in s.server && "reality" !in s.client
    ensures SameTls(TlsMeaning(ReadTls(b.prepared)), b.merged) <==> PlainTls(b.merged)
  {
    hide MergedTlsAt, PreparedTlsAt, FilledAt, OutboundAt, BuiltFrom, SameList, ListOrNone, UtlsPlain, UtlsStored,
         UtlsMeaning;
    NoReality(s, b);
    SameTlsField(s, b, "enabled");
    SameTlsField(s, b, "server_name");
    SameTlsField(s, b, "alpn");
    SameTlsField(s, b, "insecure");
    SameTlsField(s, b, "disable_sni");
    SameTlsField(s, b, "utls");
    ListAgrees(b.merged, "alpn");
    UtlsAgrees(ReadUtls(b.merged));
  }

  /** A field of the outbound is the filled out_json's. */
  lemma JsonField(s: Source, b: Built, k: string)
    requires BuiltFrom(b, s) && k in RESERVED && k !in s.config
    ensures At(b.json, k) == FilledAt(s.before, s.options, Some(b.merged), s.tag, s.hostname, k)
  {
    hide FilledAt, MergedTlsAt, PreparedTlsAt, RESERVED;
    assert At(b.json, k) == OutboundAt(b.out, s.config, s.keepFlow, k);
  }

  lemma PasswordField(s: Source, b: Built)
    requires BuiltFrom(b, s) && StrAt(s.config, "password").Some?
    ensures At(b.json, "password") == Some(JStr(StrAt(s.config, "password").value))
  {
    hide FilledAt, MergedTlsAt, PreparedTlsAt;
    assert "password"[0] != "name"[0] && "password"[0] != "alterId"[0] && "password"[0] != "flow"[0];
    assert At(b.json, "password") == OutboundAt(b.out, s.config, s.keepFlow, "password");
  }

  lemma {:induction false} NoDashes(ports: seq<string>)
    ensures ReplaceEach(ports, '-', ':') == ports <==> forall x :: x in ports ==> '-' !in x
  {
    if ports != [] {
      NoDash(ports[0]);
      NoDashes(ports[1..]);
      assert forall x :: x in ports <==> x == ports[0] || x in ports[1..];
      assert ports == [ports[0]] + ports[1..];
    }
  }

  lemma {:induction false} NoDash(s: string)
    ensures ReplaceChar(s, '-', ':') == s <==> '-' !in s
  {
    if s != [] {
      NoDash(s[1..]);
      assert s == [s[0]] + s[1..];
    }
  }

  lemma PortsAgree(m: JMap, k: string)
    ensures SameList(PortsMeaning(TextsAt(m, k)), At(m, k)) <==> PlainPorts(At(m, k))
  {
    if TextsAt(m, k).Some? {
      NoDashes(TextsAt(m, k).value);
    }
  }

  lemma ObfsAgrees(options: JMap)
    ensures SameObfs(ObfsMeaning(ReadObfs(options)), At(options, "obfs")) <==> PlainObfs(At(options, "obfs"))
  {
  }

  lemma RateAgrees(options: JMap, k: string)
    requires WholeRate(options, k)
    ensures SameRate(RateMeaning(NatAt(options, k)), At(options, k))
  {
  }

  lemma JsonFields(s: Source, b: Built)
    requires BuiltFrom(b, s) && forall k :: k in RESERVED ==> k !in s.config
    ensures At(b.json, "type") == Some(JStr("hysteria2")) && At(b.json, "tag") == Some(JStr(s.tag))
    ensures At(b.json, "server") == Some(JStr(s.hostname))
    ensures At(b.json, "server_port") == Some(OrNull(At(s.options, "listen_port")))
    ensures At(b.json, "up_mbps") == At(s.options, "down_mbps") && At(b.json, "down_mbps") == At(s.options, "up_mbps")
    ensures At(b.json, "obfs") == At(s.options, "obfs") && At(b.json, "tls") == Some(JObj(b.merged))
    ensures At(b.json, "server_ports") == At(b.out, "server_ports")
  {
    hide BuiltFrom, At, OrNull, OutboundAt;
    OutKeys();
    PortsField(s, b);
    JsonField(s, b, "type");
    JsonField(s, b, "tag");
    JsonField(s, b, "server");
    JsonField(s, b, "server_port");
    JsonField(s, b, "up_mbps");
    JsonField(s, b, "down_mbps");
    JsonField(s, b, "obfs");
    JsonField(s, b, "tls");
  }

  lemma PortsField(s: Source, b: Built)
    requires BuiltFrom(b, s) && "server_ports" !in s.config
    ensures At(b.json, "server_ports") == At(b.out, "server_ports")
  {
    hide FilledAt, MergedTlsAt, PreparedTlsAt;
    assert At(b.json, "server_ports") == OutboundAt(b.out, s.config, s.keepFlow, "server_ports");
  }

  /** The link and the subscription describe the same outbound, the rates on their proper sides, if and
      only if the stored rows hold nothing that only one of them can say. */
  lemma ViewsAgree(s: Source, b: Built, port: nat)
    requires BuiltFrom(b, s) && Plain(s, b, port)
    ensures var link := Hy2Uri(ReadUser(s.config), ReadInbound(s.options, b.out), ReadOut(b.out), LinkAddr(s, b, port));
            && link.Some? && LP.GetOutbound(link.value, 0).Some?
            && (SameOutbound(LP.GetOutbound(link.value, 0).value, b.json) <==> Expressible(s, b))
  {
    hide BuiltFrom, UserSafe, SafeAddr, SafeHy2, Hy2Uri, LP.GetOutbound, TlsMeaning, SameTls, ReadTls, PortsMeaning,
         SameRate, RateMeaning, RESERVED, ObfsMeaning, SameList, SameObfs, PlainTls, PlainPorts, PlainObfs, ReadObfs,
         TextsAt;
    var inb, addr := ReadInbound(s.options, b.out), LinkAddr(s, b, port);
    Hy2RoundTrip(ReadUser(s.config), inb, ReadOut(b.out), addr, 0);
    JsonFields(s, b);
    PasswordField(s, b);
    TlsAgrees(s, b);
    RateAgrees(s.options, "up_mbps");
    RateAgrees(s.options, "down_mbps");
    PortsAgree(b.out, "server_ports");
    ObfsAgrees(s.options);
  }
}
