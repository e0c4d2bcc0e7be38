/** Share links as text: every parameter by its literal name, both when a link is printed and when one
is parsed (util/genLink.go, util/linkToJson.go). The round trips hold for any names on which printer
and parser agree; clients of other programs need these names. */
module LinkText {
  import opened Model
  import opened Text
  import opened PercentEncoding
  import opened Urls
  import opened Queries
  import opened ShareUrls
  import opened Links
  import LP = LinksParsed

  // ---------- the characters ----------

  const HEX := "0123456789ABCDEF"

  /** What is copied and what is escaped, byte by byte (section 2 of RFC 3986, and the classes of
      net/url): a query also escapes the reserved characters, and writes a space as "+". */
  lemma EscapedByte(c: char)
    requires (c as int) < 256
    ensures var code := ['%', HEX[c as int / 16], HEX[c as int % 16]]; var plain := IsAlnum(c) || c in "-_.~";
            && EscapeChar(c, Query) == (if plain then [c] else if c == ' ' then "+" else code)
            && EscapeChar(c, UserPassword) == (if plain || c in "$&+,;=" then [c] else code)
            && EscapeChar(c, Fragment) == (if plain || c in "$&+,/:;=?@!()*" then [c] else code)
  {
    hide ShouldEscape, IsAlnum, EscapeChar;
    var code := ['%', HEX[c as int / 16], HEX[c as int % 16]];
    KeptByte(c);
    SpaceEscaped();
    CodedByte(c, Query, code);
    CodedByte(c, UserPassword, code);
    CodedByte(c, Fragment, code);
  }

  lemma CodedByte(c: char, mode: Mode, code: string)
    requires (c as int) < 256 && code == ['%', HEX[c as int / 16], HEX[c as int % 16]]
    ensures EscapeChar(c, mode) ==
            if !ShouldEscape(c, mode) then [c] else if c == ' ' && mode == Query then "+" else code
  {
    hide ShouldEscape;
    HexText(c as int / 16);
    HexText(c as int % 16);
  }

  lemma HexText(d: nat)
    requires d < 16
    ensures Hex(d) == HEX[d]
  {
  }

  lemma SpaceEscaped()
    ensures !IsAlnum(' ')
  {
  }

  lemma KeptByte(c: char)
    ensures ShouldEscape(c, Query) <==> !(IsAlnum(c) || c in "-_.~")
    ensures ShouldEscape(c, UserPassword) <==> !(IsAlnum(c) || c in "-_.~" || c in "$&+,;=")
    ensures ShouldEscape(c, Fragment) <==> !(IsAlnum(c) || c in "-_.~" || c in "$&+,/:;=?@!()*")
  {
  }

  /** Numbers are printed in decimal, without leading zeros. */
  lemma DecimalText(n: nat, d: nat)
    requires d < 10
    ensures Itoa(d) == [HEX[d]]
    ensures n > 0 ==> Itoa(10 * n + d) == Itoa(n) + Itoa(d)
  {
  }

  // ---------- the query ----------

  /** A parameter that is printed only when there is a value. */
  function Given(name: string, value: Option<string>): seq<Pair> {
    match value case None => [] case Some(v) => [Pair(name, v)]
  }

  function Decimal(rate: Option<nat>): Option<string> {
    match rate case None => None case Some(n) => Some(Itoa(n))
  }

  function Commas(items: Option<seq<string>>): Option<string> {
    match items case None => None case Some(xs) => Some(Join(xs, ','))
  }

  /** name=value with "&" in between; only port and ALPN lists are printed as they are. */
  function QueryText(pairs: seq<Pair>): string {
    if pairs == [] then ""
    else
      pairs[0].name + "="
      + (if pairs[0].name in {"mport", "alpn"} then pairs[0].value else Escape(pairs[0].value, Query))
      + if |pairs| == 1 then "" else "&" + QueryText(pairs[1..])
  }

  lemma {:induction false} QueryByName(params: seq<LinkParam>)
    ensures QueryOf(params) == QueryText(Named(params)) && |Named(params)| == |params|
  {
    hide Escape;
    if params != [] {
      QueryByName(params[1..]);
      var pairs := Named(params);
      assert pairs[1..] == Named(params[1..]) && ParamStrings(params)[1..] == ParamStrings(params[1..]);
      assert PrintedRaw(params[0].key) <==> params[0].key.Name() in {"mport", "alpn"} by { RawNames(params[0].key); }
    }
  }

  lemma RawNames(k: Key)
    ensures PrintedRaw(k) <==> k.Name() in {"mport", "alpn"}
  {
  }

  lemma {:induction false} NamedAppend(a: seq<LinkParam>, b: seq<LinkParam>)
    ensures Named(a + b) == Named(a) + Named(b)
  {
    if a == [] {
      assert a + b == b;
    } else {
      assert (a + b)[1..] == a[1..] + b;
      NamedAppend(a[1..], b);
    }
  }

  lemma NamedOpt(key: Key, value: Option<string>)
    ensures Named(Opt(key, value)) == Given(key.Name(), value)
  {
    if value.Some? {
      assert Opt(key, value)[1..] == [];
    }
  }

  // ---------- printed links ----------

  /** A link from the literal text of its bare URI and its query; `None` is the crash on a URI that
      cannot be parsed. */
  function LinkWith(scheme: string, userinfo: string, query: seq<Pair>, addr: Addr): Option<string> {
    match ParseUrl(scheme + "://" + userinfo + "@" + addr.server + ":" + Itoa(addr.port))
    case None => None
    case Some(u) => Some(UrlString(u.(rawQuery := QueryText(query), fragment := addr.remark)))
  }

  /** With a user part that is read as it stands, a plain host and any tag, the link is this text. */
  lemma FinishedText(scheme: string, userinfo: string, user: Urls.User, query: seq<Pair>, addr: Addr)
    requires PlainScheme(scheme) && Reads(userinfo, user) && PlainHost(addr.server)
    ensures LinkWith(scheme, userinfo, query, addr) == Some(
              scheme + "://"
              + Escape(user.name, UserPassword)
              + (if user.password.Some? then ":" + Escape(user.password.value, UserPassword) else "")
              + "@" + addr.server + ":" + Itoa(addr.port)
              + (if query == [] then "" else "?" + QueryText(query))
              + (if addr.remark == "" then "" else "#" + Escape(addr.remark, Fragment)))
  {
    hide ParseUrl, Reads, Escape, QueryText, PlainHost, PlainScheme, Itoa, UrlString;
    BareUriParses(scheme, userinfo, user, addr.server, addr.port);
    PlainHostPort(addr.server, addr.port);
    QueryTextEmpty(query);
    assert BareUri(scheme, userinfo, addr.server, addr.port)
        == scheme + "://" + userinfo + "@" + addr.server + ":" + Itoa(addr.port);
    PrintedText(scheme, user, addr.server + ":" + Itoa(addr.port), QueryText(query), addr.remark);
    HostAndPort(scheme + "://" + Escape(user.name, UserPassword)
                + (if user.password.Some? then ":" + Escape(user.password.value, UserPassword) else "") + "@",
                addr.server, Itoa(addr.port));
  }

  lemma HostAndPort(s: string, host: string, port: string)
    ensures s + (host + ":" + port) == s + host + ":" + port
  {
  }

  lemma PrintedText(scheme: string, user: Urls.User, hostPort: string, query: string, remark: string)
    requires Escape(hostPort, Host) == hostPort
    ensures UrlString(Url(scheme, Some(user), hostPort, "", "", false, query, remark, ""))
            == scheme + "://" + Escape(user.name, UserPassword)
               + (if user.password.Some? then ":" + Escape(user.password.value, UserPassword) else "")
               + "@" + hostPort
               + (if query == "" then "" else "?" + query)
               + (if remark == "" then "" else "#" + Escape(remark, Fragment))
  {
    hide Escape, UrlString, AuthorityString, PathString;
    var u := Url(scheme, Some(user), hostPort, "", "", false, query, remark, "");
    NothingPrinted();
    UrlPieces(u);
    var password := if user.password.Some? then ":" + Escape(user.password.value, UserPassword) else "";
    PartsOf(u, user, hostPort);
    assert "?" == ['?'] && "#" == ['#'];
    Flattened(scheme + "://", Escape(user.name, UserPassword), password, "@", hostPort,
              Part('?', query, query != []), Part('#', Escape(remark, Fragment), remark != []));
  }

  lemma PartsOf(u: Url, user: Urls.User, hostPort: string)
    requires u.user == Some(user) && u.host == hostPort && u.path == "" && u.rawPath == "" && u.rawFragment == ""
    requires Escape(hostPort, Host) == hostPort
    ensures PathString(u) == "" && Encoded(u.rawFragment, u.fragment, Fragment) == Escape(u.fragment, Fragment)
    ensures AuthorityString(u) ==
            Escape(user.name, UserPassword)
            + (if user.password.Some? then ":" + Escape(user.password.value, UserPassword) else "") + "@" + hostPort
  {
    hide Escape;
    NothingPrinted();
    var name := Escape(user.name, UserPassword);
    assert name + "" + "@" == name + "@";
  }

  lemma Flattened(s: string, n: string, w: string, at: string, h: string, q: string, f: string)
    ensures s + (n + w + at + h + "" + q) + f == s + n + w + at + h + q + f
  {
  }

  lemma QueryTextEmpty(query: seq<Pair>)
    ensures QueryText(query) == "" <==> query == []
  {
  }

  lemma LinkByName(scheme: string, userinfo: string, params: seq<LinkParam>, addr: Addr)
    ensures ShareLink(scheme, userinfo, params, addr) == LinkWith(scheme, userinfo, Named(params), addr)
  {
    hide ParseUrl, UrlString;
    QueryByName(params);
  }

  /** Security, then the Reality keys or the two switches, then fingerprint, server name and ALPN. */
  function TlsQuery(tls: Tls, insecure: string): seq<Pair> {
    (if tls.reality.Some? && tls.reality.value.enabled then
       [Pair("security", "reality")]
       + Given("pbk", tls.reality.value.publicKey) + Given("sid", tls.reality.value.shortId)
     else
       [Pair("security", "tls")]
       + (if tls.insecure == Some(true) then [Pair(insecure, "1")] else [])
       + (if tls.disableSni == Some(true) then [Pair("disable_sni", "1")] else []))
    + Given("fp", if tls.utls.Some? then tls.utls.value.fingerprint else None)
    + Given("sni", tls.serverName) + Given("alpn", Commas(tls.alpn))
  }

  lemma TlsText(tls: Tls, insecureKey: Key)
    ensures Named(TlsParams(tls, insecureKey)) == TlsQuery(tls, insecureKey.Name())
  {
    hide Named, Opt, Given, SecurityParams, Joined, Commas, Fingerprint;
    SecurityText(tls, insecureKey);
    SameFields(tls);
    var fp, sni, alpn := Opt(Fp, Fingerprint(tls)), Opt(Sni, tls.serverName), Opt(Alpn, Joined(tls.alpn));
    NamedOpt(Fp, Fingerprint(tls));
    NamedOpt(Sni, tls.serverName);
    NamedOpt(Alpn, Joined(tls.alpn));
    NamedAppend(sni, alpn);
    NamedAppend(fp, sni + alpn);
    NamedAppend(SecurityParams(tls, insecureKey), HelloParams(tls));
  }

  lemma SameFields(tls: Tls)
    ensures Joined(tls.alpn) == Commas(tls.alpn)
    ensures Fingerprint(tls) == if tls.utls.Some? then tls.utls.value.fingerprint else None
  {
  }

  lemma SecurityText(tls: Tls, insecureKey: Key)
    ensures Named(SecurityParams(tls, insecureKey)) ==
            if tls.reality.Some? && tls.reality.value.enabled then
              [Pair("security", "reality")]
              + Given("pbk", tls.reality.value.publicKey) + Given("sid", tls.reality.value.shortId)
            else
              [Pair("security", "tls")]
              + (if tls.insecure == Some(true) then [Pair(insecureKey.Name(), "1")] else [])
              + (if tls.disableSni == Some(true) then [Pair("disable_sni", "1")] else [])
  {
    hide Named, Opt, Given, OneIf;
    var reality := RealityOn(tls);
    var security := Some(if reality then "reality" else "tls");
    var pbk := if reality then tls.reality.value.publicKey else None;
    var sid := if reality then tls.reality.value.shortId else None;
    var insecure := OneIf(!reality && tls.insecure == Some(true));
    var disableSni := OneIf(!reality && tls.disableSni == Some(true));
    FiveNamed(Security, security, Pbk, pbk, Sid, sid, insecureKey, insecure, DisableSni, disableSni);
    GivenSome("security", security.value);
    GivenOne(insecureKey.Name(), !reality && tls.insecure == Some(true));
    GivenOne("disable_sni", !reality && tls.disableSni == Some(true));
    GivenNone("pbk");
    GivenNone("sid");
  }

  lemma GivenSome(name: string, value: string)
    ensures Given(name, Some(value)) == [Pair(name, value)]
  {
  }

  lemma GivenOne(name: string, on: bool)
    ensures Given(name, OneIf(on)) == if on then [Pair(name, "1")] else []
  {
  }

  lemma GivenNone(name: string)
    ensures Given(name, None) == []
  {
  }

  lemma FiveNamed(k1: Key, v1: Option<string>, k2: Key, v2: Option<string>, k3: Key, v3: Option<string>,
                  k4: Key, v4: Option<string>, k5: Key, v5: Option<string>)
    ensures Named(Opt(k1, v1) + (Opt(k2, v2) + (Opt(k3, v3) + (Opt(k4, v4) + Opt(k5, v5)))))
            == Given(k1.Name(), v1) + Given(k2.Name(), v2) + Given(k3.Name(), v3)
               + (Given(k4.Name(), v4) + Given(k5.Name(), v5))
  {
    hide Named, Opt, Given, Key.Name;
    NamedOpt(k1, v1);
    NamedOpt(k2, v2);
    NamedOpt(k3, v3);
    NamedOpt(k4, v4);
    NamedOpt(k5, v5);
    NamedAppend(Opt(k4, v4), Opt(k5, v5));
    NamedAppend(Opt(k3, v3), Opt(k4, v4) + Opt(k5, v5));
    NamedAppend(Opt(k2, v2), Opt(k3, v3) + (Opt(k4, v4) + Opt(k5, v5)));
    NamedAppend(Opt(k1, v1), Opt(k2, v2) + (Opt(k3, v3) + (Opt(k4, v4) + Opt(k5, v5))));
  }

  /** The TLS of an address that always prints it: hysteria2, tuic and anytls. */
  function AddrQuery(addr: Addr): seq<Pair> {
    if addr.tls.Some? then TlsQuery(addr.tls.value, "insecure") else []
  }

  /** The TLS of an address that prints it only when switched on: vless and trojan. */
  function StreamQuery(addr: Addr): seq<Pair> {
    if addr.tls.Some? && addr.tls.value.enabled then TlsQuery(addr.tls.value, "allowInsecure") else []
  }

  lemma AddrText(addr: Addr)
    ensures Named(AddrTls(addr, Insecure)) == AddrQuery(addr)
    ensures Named(StreamTls(addr)) == StreamQuery(addr)
  {
    hide TlsParams, TlsQuery;
    if addr.tls.Some? {
      TlsText(addr.tls.value, Insecure);
      TlsText(addr.tls.value, AllowInsecure);
    }
  }

  /** hysteria2: the server's up is the client's down. */
  lemma Hy2Text(user: UserConfig, inb: InboundOptions, out: OutJson, addr: Addr)
    ensures Hy2Uri(user, inb, out, addr) == LinkWith(
              "hysteria2", OrEmpty(user.password),
              Given("downmbps", Decimal(inb.upMbps)) + Given("upmbps", Decimal(inb.downMbps))
              + AddrQuery(addr)
              + Given("obfs", if inb.obfs.Some? then inb.obfs.value.kind else None)
              + Given("obfs-password", if inb.obfs.Some? then inb.obfs.value.password else None)
              + [Pair("fastopen", if inb.tcpFastOpen then "1" else "0")]
              + Given("mport", Commas(out.serverPorts)),
              addr)
  {
    hide Named, LinkWith, ShareLink, AddrTls, AddrQuery, Hy2Rates, Hy2Rest, Given, Decimal, Commas;
    LinkByName("hysteria2", OrEmpty(user.password), Hy2Rates(inb) + AddrTls(addr, Insecure) + Hy2Rest(inb, out), addr);
    NamedAppend(Hy2Rates(inb) + AddrTls(addr, Insecure), Hy2Rest(inb, out));
    NamedAppend(Hy2Rates(inb), AddrTls(addr, Insecure));
    AddrText(addr);
    Hy2RatesText(inb);
    Hy2RestText(inb, out);
    var kind := Given("obfs", if inb.obfs.Some? then inb.obfs.value.kind else None);
    var password := Given("obfs-password", if inb.obfs.Some? then inb.obfs.value.password else None);
    var fast := [Pair("fastopen", if inb.tcpFastOpen then "1" else "0")];
    var ports := Given("mport", Commas(out.serverPorts));
    var front := Given("downmbps", Decimal(inb.upMbps)) + Given("upmbps", Decimal(inb.downMbps)) + AddrQuery(addr);
    assert front + (kind + password + fast + ports) == front + kind + password + fast + ports;
  }

  lemma Hy2RatesText(inb: InboundOptions)
    ensures Named(Hy2Rates(inb)) == Given("downmbps", Decimal(inb.upMbps)) + Given("upmbps", Decimal(inb.downMbps))
  {
    hide Named, Opt;
    NamedAppend(Opt(DownMbps, Rate(inb.upMbps)), Opt(UpMbps, Rate(inb.downMbps)));
    NamedOpt(DownMbps, Rate(inb.upMbps));
    NamedOpt(UpMbps, Rate(inb.downMbps));
  }

  lemma Hy2RestText(inb: InboundOptions, out: OutJson)
    ensures Named(Hy2Rest(inb, out))
            == Given("obfs", if inb.obfs.Some? then inb.obfs.value.kind else None)
               + Given("obfs-password", if inb.obfs.Some? then inb.obfs.value.password else None)
               + [Pair("fastopen", if inb.tcpFastOpen then "1" else "0")]
               + Given("mport", Commas(out.serverPorts))
  {
    hide Named, Opt, Join;
    var kind := if inb.obfs.Some? then inb.obfs.value.kind else None;
    var password := if inb.obfs.Some? then inb.obfs.value.password else None;
    var fast := Some(if inb.tcpFastOpen then "1" else "0");
    NamedOpt(Obfs, kind);
    NamedOpt(ObfsPassword, password);
    NamedOpt(FastOpen, fast);
    NamedOpt(MPort, Joined(out.serverPorts));
    NamedAppend(Opt(Obfs, kind), Opt(ObfsPassword, password));
    NamedAppend(Opt(Obfs, kind) + Opt(ObfsPassword, password), Opt(FastOpen, fast));
    NamedAppend(Opt(Obfs, kind) + Opt(ObfsPassword, password) + Opt(FastOpen, fast),
                Opt(MPort, Joined(out.serverPorts)));
  }

  lemma AnyTlsText(user: UserConfig, addr: Addr)
    ensures AnyTlsUri(user, addr) == LinkWith("anytls", OrEmpty(user.password), AddrQuery(addr), addr)
  {
    hide LinkWith, ShareLink, AddrTls, AddrQuery;
    LinkByName("anytls", OrEmpty(user.password), AddrTls(addr, Insecure), addr);
    AddrText(addr);
  }

  lemma TuicText(user: UserConfig, inb: InboundOptions, addr: Addr)
    ensures TuicUri(user, inb, addr) == LinkWith(
              "tuic", OrEmpty(user.uuid) + ":" + OrEmpty(user.password),
              AddrQuery(addr) + Given("congestion_control", inb.congestionControl)
              + Given("udp_relay_mode",
                      if inb.outJson.None? || inb.outJson.value.udpRelayMode == Some("") then None
                      else inb.outJson.value.udpRelayMode),
              addr)
  {
    hide Named, LinkWith, ShareLink, AddrTls, AddrQuery;
    var mode := if inb.outJson.Some? then inb.outJson.value.udpRelayMode else None;
    var printed := if mode == Some("") then None else mode;
    LinkByName("tuic", OrEmpty(user.uuid) + ":" + OrEmpty(user.password),
               AddrTls(addr, Insecure) + TuicParams(inb), addr);
    NamedAppend(AddrTls(addr, Insecure), TuicParams(inb));
    AddrText(addr);
    NamedOpt(CongestionControl, inb.congestionControl);
    NamedOpt(UdpRelayMode, printed);
    NamedAppend(Opt(CongestionControl, inb.congestionControl), Opt(UdpRelayMode, printed));
    assert AddrQuery(addr) + (Given("congestion_control", inb.congestionControl) + Given("udp_relay_mode", printed))
        == AddrQuery(addr) + Given("congestion_control", inb.congestionControl) + Given("udp_relay_mode", printed);
  }

  /** The transport: its type, and the fields of that type. */
  function TransportQuery(t: Transport): seq<Pair> {
    match t.kind
    case None => [Pair("type", "tcp")]
    case Some(kind) =>
      [Pair("type", kind)]
      + (if kind == "http" then Given("host", Commas(t.hosts)) + Given("path", t.path)
         else if kind == "ws" then Given("path", t.path) + Given("host", t.headerHost)
         else if kind == "grpc" then Given("serviceName", t.serviceName)
         else if kind == "httpupgrade" then Given("host", t.host) + Given("path", t.path)
         else [])
  }

  lemma TransportText(t: Transport)
    ensures Named(TransportParams(t)) == TransportQuery(t)
  {
    hide Named;
    var kind := Kind(t);
    NamedOpt(Type, Some(kind));
    NamedOpt(Host_, Joined(t.hosts));
    NamedOpt(Host_, t.headerHost);
    NamedOpt(Host_, t.host);
    NamedOpt(Path_, t.path);
    NamedOpt(ServiceName, t.serviceName);
    NamedAppend(Opt(Host_, Joined(t.hosts)), Opt(Path_, t.path));
    NamedAppend(Opt(Path_, t.path), Opt(Host_, t.headerHost));
    NamedAppend(Opt(Host_, t.host), Opt(Path_, t.path));
    NamedAppend(Opt(Type, Some(kind)), Opt(Host_, Joined(t.hosts)) + Opt(Path_, t.path));
    NamedAppend(Opt(Type, Some(kind)), Opt(Path_, t.path) + Opt(Host_, t.headerHost));
    NamedAppend(Opt(Type, Some(kind)), Opt(ServiceName, t.serviceName));
    NamedAppend(Opt(Type, Some(kind)), Opt(Host_, t.host) + Opt(Path_, t.path));
  }

  /** vless: the flow only over TLS and plain TCP. */
  lemma VlessText(user: UserConfig, inb: InboundOptions, addr: Addr)
    ensures VlessUri(user, inb, addr) == LinkWith(
              "vless", OrEmpty(user.uuid),
              TransportQuery(inb.transport) + StreamQuery(addr)
              + Given("flow", if addr.tls.Some? && addr.tls.value.enabled
                              && (inb.transport.kind.None? || inb.transport.kind == Some("tcp"))
                              then user.flow else None),
              addr)
  {
    hide Named, LinkWith, ShareLink, StreamTls, StreamQuery, TransportQuery;
    TcpExact(inb.transport);
    var flow := if PrintsTls(addr) && IsTcp(inb.transport) then user.flow else None;
    var transport := TransportParams(inb.transport);
    LinkByName("vless", OrEmpty(user.uuid), transport + StreamTls(addr) + VlessFlow(user, inb, addr), addr);
    NamedAppend(transport + StreamTls(addr), VlessFlow(user, inb, addr));
    NamedAppend(transport, StreamTls(addr));
    NamedOpt(Flow, flow);
    AddrText(addr);
    TransportText(inb.transport);
  }

  lemma TcpExact(t: Transport)
    ensures IsTcp(t) <==> t.kind.None? || t.kind == Some("tcp")
  {
  }

  lemma TrojanText(user: UserConfig, inb: InboundOptions, addr: Addr)
    ensures TrojanUri(user, inb, addr) == LinkWith(
              "trojan", OrEmpty(user.password), TransportQuery(inb.transport) + StreamQuery(addr), addr)
  {
    hide Named, LinkWith, ShareLink, StreamTls, StreamQuery, TransportQuery, TransportParams;
    LinkByName("trojan", OrEmpty(user.password), TransportParams(inb.transport) + StreamTls(addr), addr);
    NamedAppend(TransportParams(inb.transport), StreamTls(addr));
    AddrText(addr);
    TransportText(inb.transport);
  }

  // ---------- parsed links ----------

  /** The first value under a name, or nothing. */
  function Value(q: seq<Pair>, name: string): string {
    if q == [] then "" else if q[0].name == name then q[0].value else Value(q[1..], name)
  }

  lemma {:induction false} GetByName(q: seq<Pair>, k: Key)
    ensures Get(q, k) == Value(q, k.Name())
  {
    hide Key.Name;
    if q != [] {
      GetByName(q[1..], k);
    }
  }

  predicate SwitchedOn(q: seq<Pair>, name: string) {
    Value(q, name) == "1" || Value(q, name) == "true"
  }

  /** Every TLS field of a parsed link, by the literal name it is read from. */
  lemma TlsByName(security: string, q: seq<Pair>)
    ensures var tls := LP.GetTls(security, q);
            && (tls.enabled <==> security == "tls" || security == "reality")
            && tls.reality == (if security != "reality" then None
                               else Some(OutReality(Value(q, "pbk"), Value(q, "sid"))))
            && (if Value(q, "sni") == "" then tls.serverName.None? else tls.serverName == Some(Value(q, "sni")))
            && (if Value(q, "alpn") == "" then tls.alpn.None? else tls.alpn == Some(Split(Value(q, "alpn"), ',')))
            && (tls.insecure <==> SwitchedOn(q, "insecure") || SwitchedOn(q, "allowInsecure"))
            && (if Value(q, "fp") == "" then tls.utls.None? else tls.utls == Some(OutUtls(true, Value(q, "fp"))))
            && (if Value(q, "ech") == "" then tls.ech.None? else tls.ech == Some(Value(q, "ech")))
            && (tls.disableSni <==> SwitchedOn(q, "disable_sni"))
  {
    hide Get, Value, Split;
    GetByName(q, Pbk);
    GetByName(q, Sid);
    GetByName(q, Sni);
    GetByName(q, Alpn);
    GetByName(q, Insecure);
    GetByName(q, AllowInsecure);
    GetByName(q, Fp);
    GetByName(q, Ech);
    GetByName(q, DisableSni);
  }

  function HostList(q: seq<Pair>): Option<seq<string>> {
    if Value(q, "host") == "" then None else Some(Split(Value(q, "host"), ','))
  }

  /** Every transport of a parsed link, by the literal names it is read from. */
  lemma TransportByName(tpType: string, q: seq<Pair>)
    ensures var t, kind := LP.GetTransport(tpType, q), ToLower(tpType);
            && (kind in {"http", "h2"} || (kind in {"tcp", ""} && Value(q, "headerType") == "http") ==>
                  t == OutTransport("http", HostList(q), None, Some(Value(q, "path")), None, None))
            && (kind in {"tcp", ""} && Value(q, "headerType") != "http" ==>
                  t == OutTransport("", None, None, None, None, None))
            && (kind == "ws" ==>
                  t == OutTransport("ws", None, None, Some(Value(q, "path")),
                                    if Value(q, "host") == "" then None else Some(Value(q, "host")), None))
            && (kind == "quic" ==> t == OutTransport("quic", None, None, None, None, None))
            && (kind == "grpc" ==> t == OutTransport("grpc", None, None, None, None, Some(Value(q, "serviceName"))))
            && (kind == "httpupgrade" ==>
                  t == OutTransport("httpupgrade", None, Some(Value(q, "host")), Some(Value(q, "path")), None, None))
            && (kind !in {"http", "h2", "tcp", "", "ws", "quic", "grpc", "httpupgrade"} ==> t.kind == "")
  {
    hide Get, Value, Split, ToLower;
    GetByName(q, Host_);
    GetByName(q, Path_);
    GetByName(q, HeaderType);
    GetByName(q, ServiceName);
  }

  /** What all outbounds of links take from the URL: a list numbers its tags, the host may be missing,
      and a missing port is the default. */
  ghost predicate Addressed(tag: string, server: string, port: int, u: Url, i: nat, default: int) {
    && tag == (if i == 0 then u.fragment else Itoa(i) + "." + u.fragment)
    && server == SplitHostPort(u.host).0
    && port == (if SplitHostPort(u.host).1 == "" then default else Atoi(SplitHostPort(u.host).1))
  }

  /** Which parser a link goes to; every other scheme is refused here. */
  lemma Dispatched(uri: string, u: Url, i: nat)
    requires ParseUrl(uri) == Some(u)
    ensures LP.GetOutbound(uri, i) ==
            if u.scheme == "hysteria2" || u.scheme == "hy2" then Some(LP.ParseHy2(u, i))
            else if u.scheme == "anytls" then Some(LP.ParseAnyTls(u, i))
            else if u.scheme == "tuic" then Some(LP.ParseTuic(u, i))
            else if u.scheme == "vless" then Some(LP.ParseVless(u, i))
            else if u.scheme == "trojan" then Some(LP.ParseTrojan(u, i))
            else None
  {
    hide ParseUrl, LP.ParseHy2, LP.ParseAnyTls, LP.ParseTuic, LP.ParseVless, LP.ParseTrojan;
  }

  lemma AddressedBy(u: Url, i: nat, default: int)
    ensures Addressed(LP.Tag(u, i), LP.Server(u), LP.Port(u, default), u, i, default)
  {
  }

  function DefaultTls(q: seq<Pair>): string {
    if Value(q, "security") == "" then "tls" else Value(q, "security")
  }

  lemma Hy2RatesByName(u: Url, i: nat)
    ensures LP.ParseHy2(u, i).Hysteria2?
    ensures var o, q := LP.ParseHy2(u, i), ParseQuery(u.rawQuery);
            var down, up := Atoi(Value(q, "downmbps")), Atoi(Value(q, "upmbps"));
            && o.downMbps == (if down > 0 then Some(down) else None)
            && o.upMbps == (if up > 0 then Some(up) else None)
  {
    var q := ParseQuery(u.rawQuery);
    hide ParseQuery, Get, Value, LP.Tag, LP.Server, LP.Port, LP.GetTls, Atoi, ReplaceChar, Split, LP.Items, LP.OrTls;
    GetByName(q, DownMbps);
    GetByName(q, UpMbps);
  }

  lemma Hy2ExtrasByName(u: Url, i: nat)
    ensures LP.ParseHy2(u, i).Hysteria2?
    ensures var o, q := LP.ParseHy2(u, i), ParseQuery(u.rawQuery);
            var ports := ReplaceChar(Value(q, "mport"), '-', ':');
            && o.obfs == (if Value(q, "obfs") == "salamander" then Some(Value(q, "obfs-password")) else None)
            && o.serverPorts == (if ports == "" then None else Some(Split(ports, ',')))
            && (o.fastOpen <==> SwitchedOn(q, "fastopen"))
  {
    var q := ParseQuery(u.rawQuery);
    hide ParseQuery, Get, Value, LP.Tag, LP.Server, LP.Port, LP.GetTls, LP.OrTls, LP.Positive, Atoi, ReplaceChar, Split;
    GetByName(q, MPort);
    GetByName(q, Obfs);
    GetByName(q, ObfsPassword);
    GetByName(q, FastOpen);
  }

  /** A hysteria2 outbound by the literal names its fields are read from. */
  lemma Hy2ByName(u: Url, i: nat)
    ensures LP.ParseHy2(u, i).Hysteria2?
    ensures var o, q := LP.ParseHy2(u, i), ParseQuery(u.rawQuery);
            var down, up := Atoi(Value(q, "downmbps")), Atoi(Value(q, "upmbps"));
            var ports := ReplaceChar(Value(q, "mport"), '-', ':');
            && Addressed(o.tag, o.server, o.serverPort, u, i, 443) && o.password == UserName(u)
            && o.tls == LP.GetTls(DefaultTls(q), q)
            && o.downMbps == (if down > 0 then Some(down) else None)
            && o.upMbps == (if up > 0 then Some(up) else None)
            && o.obfs == (if Value(q, "obfs") == "salamander" then Some(Value(q, "obfs-password")) else None)
            && o.serverPorts == (if ports == "" then None else Some(Split(ports, ',')))
            && (o.fastOpen <==> SwitchedOn(q, "fastopen"))
  {
    var q := ParseQuery(u.rawQuery);
    hide ParseQuery, Get, Value, Addressed, LP.Tag, LP.Server, LP.Port, LP.GetTls, LP.Items, LP.Positive, LP.Truthy,
         Atoi, ReplaceChar, Split, SwitchedOn;
    AddressedBy(u, i, 443);
    GetByName(q, Security);
    Hy2RatesByName(u, i);
    Hy2ExtrasByName(u, i);
  }

  lemma AnyTlsByName(u: Url, i: nat)
    ensures LP.ParseAnyTls(u, i).AnyTls?
    ensures var o, q := LP.ParseAnyTls(u, i), ParseQuery(u.rawQuery);
            && Addressed(o.tag, o.server, o.serverPort, u, i, 443) && o.password == UserName(u)
            && o.tls == LP.GetTls(DefaultTls(q), q)
  {
    hide ParseQuery, Get, Value, Addressed, LP.Tag, LP.Server, LP.Port, LP.GetTls, Atoi;
    AddressedBy(u, i, 443);
    GetByName(ParseQuery(u.rawQuery), Security);
  }

  lemma TuicByName(u: Url, i: nat)
    ensures LP.ParseTuic(u, i).Tuic?
    ensures var o, q := LP.ParseTuic(u, i), ParseQuery(u.rawQuery);
            && Addressed(o.tag, o.server, o.serverPort, u, i, 443)
            && o.uuid == UserName(u) && o.password == Password(u) && o.tls == LP.GetTls(DefaultTls(q), q)
            && o.congestionControl == Value(q, "congestion_control") && o.udpRelayMode == Value(q, "udp_relay_mode")
  {
    var q := ParseQuery(u.rawQuery);
    hide ParseQuery, Get, Value, Addressed, LP.Tag, LP.Server, LP.Port, LP.GetTls, Atoi;
    AddressedBy(u, i, 443);
    GetByName(q, Security);
    GetByName(q, CongestionControl);
    GetByName(q, UdpRelayMode);
  }

  function DefaultPort(q: seq<Pair>): int {
    if Value(q, "security") in {"tls", "reality"} then 443 else 80
  }

  lemma VlessByName(u: Url, i: nat)
    ensures LP.ParseVless(u, i).Vless?
    ensures var o, q := LP.ParseVless(u, i), ParseQuery(u.rawQuery);
            && Addressed(o.tag, o.server, o.serverPort, u, i, DefaultPort(q))
            && o.uuid == UserName(u) && o.flow == Value(q, "flow")
            && o.tls == LP.GetTls(Value(q, "security"), q) && o.transport == LP.GetTransport(Value(q, "type"), q)
  {
    var q := ParseQuery(u.rawQuery);
    hide ParseQuery, Get, Value, Addressed, LP.Tag, LP.Server, LP.Port, LP.GetTls, LP.GetTransport, Atoi;
    AddressedBy(u, i, DefaultPort(q));
    GetByName(q, Security);
    GetByName(q, Flow);
    GetByName(q, Type);
  }

  lemma TrojanByName(u: Url, i: nat)
    ensures LP.ParseTrojan(u, i).Trojan?
    ensures var o, q := LP.ParseTrojan(u, i), ParseQuery(u.rawQuery);
            && Addressed(o.tag, o.server, o.serverPort, u, i, DefaultPort(q)) && o.password == UserName(u)
            && o.tls == LP.GetTls(Value(q, "security"), q) && o.transport == LP.GetTransport(Value(q, "type"), q)
  {
    var q := ParseQuery(u.rawQuery);
    hide ParseQuery, Get, Value, Addressed, LP.Tag, LP.Server, LP.Port, LP.GetTls, LP.GetTransport, Atoi;
    AddressedBy(u, i, DefaultPort(q));
    GetByName(q, Security);
    GetByName(q, Type);
  }
}
