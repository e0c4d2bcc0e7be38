/** What share links are printed from and parsed to: inbound settings on one side, outbounds on the
other (util/genLink.go, util/linkToJson.go). JSON maps are records whose fields may be absent. */
module Links {
  import opened Model
  import opened Text
  import opened Queries
  import opened ShareUrls

  // ---------- the printing side ----------

  datatype Reality = Reality(enabled: bool, publicKey: Option<string>, shortId: Option<string>)

  datatype Utls = Utls(enabled: bool, fingerprint: Option<string>)

  datatype Tls = Tls(
    enabled: bool, reality: Option<Reality>, insecure: Option<bool>, disableSni: Option<bool>,
    utls: Option<Utls>, serverName: Option<string>, alpn: Option<seq<string>>)

  datatype Transport = Transport(
    kind: Option<string>, hosts: Option<seq<string>>, host: Option<string>, path: Option<string>,
    headerHost: Option<string>, serviceName: Option<string>)

  datatype Obfuscation = Obfuscation(kind: Option<string>, password: Option<string>)

  /** The inbound's out_json, as far as links read it. */
  datatype OutJson = OutJson(serverPorts: Option<seq<string>>, udpRelayMode: Option<string>)

  datatype InboundOptions = InboundOptions(
    upMbps: Option<nat>, downMbps: Option<nat>, obfs: Option<Obfuscation>, tcpFastOpen: bool,
    congestionControl: Option<string>, transport: Transport, outJson: Option<OutJson>)

  datatype Addr = Addr(server: string, port: nat, remark: string, tls: Option<Tls>)

  datatype UserConfig = UserConfig(password: Option<string>, uuid: Option<string>, flow: Option<string>)

  // ---------- the parsing side ----------

  datatype OutReality = OutReality(publicKey: string, shortId: string)

  datatype OutUtls = OutUtls(enabled: bool, fingerprint: string)

  datatype OutTls = OutTls(
    enabled: bool, reality: Option<OutReality>, serverName: Option<string>, alpn: Option<seq<string>>,
    insecure: bool, utls: Option<OutUtls>, ech: Option<string>, disableSni: bool)

  /** `kind` is empty for the empty transport. */
  datatype OutTransport = OutTransport(
    kind: string, hosts: Option<seq<string>>, host: Option<string>, path: Option<string>,
    headerHost: Option<string>, serviceName: Option<string>)

  datatype Outbound =
    | Hysteria2(tag: string, server: string, serverPort: int, password: string, tls: OutTls,
                downMbps: Option<int>, upMbps: Option<int>, obfs: Option<string>, serverPorts: Option<seq<string>>,
                fastOpen: bool)
    | AnyTls(tag: string, server: string, serverPort: int, password: string, tls: OutTls)
    | Tuic(tag: string, server: string, serverPort: int, uuid: string, password: string,
           congestionControl: string, udpRelayMode: string, tls: OutTls)
    | Vless(tag: string, server: string, serverPort: int, uuid: string, flow: string, tls: OutTls,
            transport: OutTransport)
    | Trojan(tag: string, server: string, serverPort: int, password: string, tls: OutTls, transport: OutTransport)

  // ---------- parameters ----------

  predicate RealityOn(tls: Tls) {
    tls.reality.Some? && tls.reality.value.enabled
  }

  function OneIf(b: bool): Option<string> {
    if b then Some("1") else None
  }

  function Joined(items: Option<seq<string>>): Option<string> {
    match items case None => None case Some(xs) => Some(Join(xs, ','))
  }

  /** Security, then the Reality keys or the two switches. */
  function SecurityParams(tls: Tls, insecureKey: Key): seq<LinkParam> {
    var reality := RealityOn(tls);
    Opt(Security, Some(if reality then "reality" else "tls"))
    + (Opt(Pbk, if reality then tls.reality.value.publicKey else None)
       + (Opt(Sid, if reality then tls.reality.value.shortId else None)
          + (Opt(insecureKey, OneIf(!reality && tls.insecure == Some(true)))
             + Opt(DisableSni, OneIf(!reality && tls.disableSni == Some(true))))))
  }

  /** Printed whether uTLS is switched on or not. */
  function Fingerprint(tls: Tls): Option<string> {
    match tls.utls case None => None case Some(utls) => utls.fingerprint
  }

  function HelloParams(tls: Tls): seq<LinkParam> {
    Opt(Fp, Fingerprint(tls)) + (Opt(Sni, tls.serverName) + Opt(Alpn, Joined(tls.alpn)))
  }

  function TlsParams(tls: Tls, insecureKey: Key): seq<LinkParam> {
    SecurityParams(tls, insecureKey) + HelloParams(tls)
  }

  function Kind(t: Transport): string {
    match t.kind case None => "tcp" case Some(k) => k
  }

  function TransportParams(t: Transport): seq<LinkParam> {
    var kind := Kind(t);
    if kind == "http" then Opt(Type, Some(kind)) + (Opt(Host_, Joined(t.hosts)) + Opt(Path_, t.path))
    else if kind == "ws" then Opt(Type, Some(kind)) + (Opt(Path_, t.path) + Opt(Host_, t.headerHost))
    else if kind == "grpc" then Opt(Type, Some(kind)) + Opt(ServiceName, t.serviceName)
    else if kind == "httpupgrade" then Opt(Type, Some(kind)) + (Opt(Host_, t.host) + Opt(Path_, t.path))
    else Opt(Type, Some(kind))
  }

  function Rate(r: Option<nat>): Option<string> {
    match r case None => None case Some(n) => Some(Itoa(n))
  }

  function AddrTls(addr: Addr, insecureKey: Key): seq<LinkParam> {
    match addr.tls case None => [] case Some(tls) => TlsParams(tls, insecureKey)
  }

  /** The server's upload is the client's download. */
  function Hy2Rates(inb: InboundOptions): seq<LinkParam> {
    Opt(DownMbps, Rate(inb.upMbps)) + Opt(UpMbps, Rate(inb.downMbps))
  }

  function Hy2Rest(inb: InboundOptions, out: OutJson): seq<LinkParam> {
    Opt(Obfs, if inb.obfs.Some? then inb.obfs.value.kind else None)
    + Opt(ObfsPassword, if inb.obfs.Some? then inb.obfs.value.password else None)
    + Opt(FastOpen, Some(if inb.tcpFastOpen then "1" else "0"))
    + Opt(MPort, Joined(out.serverPorts))
  }

  function TuicParams(inb: InboundOptions): seq<LinkParam> {
    var mode := if inb.outJson.Some? then inb.outJson.value.udpRelayMode else None;
    Opt(CongestionControl, inb.congestionControl) + Opt(UdpRelayMode, if mode == Some("") then None else mode)
  }

  predicate PrintsTls(addr: Addr) {
    addr.tls.Some? && addr.tls.value.enabled
  }

  function StreamTls(addr: Addr): seq<LinkParam> {
    if PrintsTls(addr) then TlsParams(addr.tls.value, AllowInsecure) else []
  }

  predicate IsTcp(t: Transport) {
    |TransportParams(t)| == 1 && Kind(t) == "tcp"
  }

  function VlessFlow(user: UserConfig, inb: InboundOptions, addr: Addr): seq<LinkParam> {
    Opt(Flow, if PrintsTls(addr) && IsTcp(inb.transport) then user.flow else None)
  }

  // ---------- the links ----------

  function ShareLink(scheme: string, userinfo: string, params: seq<LinkParam>, addr: Addr): Option<string> {
    AddParams(BareUri(scheme, userinfo, addr.server, addr.port), params, addr.remark)
  }

  function Hy2Uri(user: UserConfig, inb: InboundOptions, out: OutJson, addr: Addr): Option<string> {
    ShareLink("hysteria2", OrEmpty(user.password), Hy2Rates(inb) + AddrTls(addr, Insecure) + Hy2Rest(inb, out), addr)
  }

  function AnyTlsUri(user: UserConfig, addr: Addr): Option<string> {
    ShareLink("anytls", OrEmpty(user.password), AddrTls(addr, Insecure), addr)
  }

  function TuicUri(user: UserConfig, inb: InboundOptions, addr: Addr): Option<string> {
    ShareLink("tuic", OrEmpty(user.uuid) + ":" + OrEmpty(user.password),
              AddrTls(addr, Insecure) + TuicParams(inb), addr)
  }

  function VlessUri(user: UserConfig, inb: InboundOptions, addr: Addr): Option<string> {
    ShareLink("vless", OrEmpty(user.uuid),
              TransportParams(inb.transport) + StreamTls(addr) + VlessFlow(user, inb, addr), addr)
  }

  function TrojanUri(user: UserConfig, inb: InboundOptions, addr: Addr): Option<string> {
    ShareLink("trojan", OrEmpty(user.password), TransportParams(inb.transport) + StreamTls(addr), addr)
  }

  // ---------- addresses ----------

  /** An extra address of an inbound, with the TLS fields it overrides. */
  datatype TlsPatch = TlsPatch(
    enabled: Option<bool>, reality: Option<Reality>, insecure: Option<bool>, disableSni: Option<bool>,
    utls: Option<Utls>, serverName: Option<string>, alpn: Option<seq<string>>)

  datatype StoredAddr = StoredAddr(server: string, port: nat, remark: string, tls: Option<TlsPatch>)

  const NO_TLS := Tls(false, None, None, None, None, None, None)

  function OrElse<T>(a: Option<T>, b: Option<T>): Option<T> {
    if a.Some? then a else b
  }

  function Patched(tls: Tls, patch: TlsPatch): Tls {
    Tls(if patch.enabled.Some? then patch.enabled.value else tls.enabled,
        OrElse(patch.reality, tls.reality), OrElse(patch.insecure, tls.insecure), OrElse(patch.disableSni,
        tls.disableSni),
        OrElse(patch.utls, tls.utls), OrElse(patch.serverName, tls.serverName), OrElse(patch.alpn,
        tls.alpn))
  }

  /** Field by field, an address's own value wins over the profile's. */
  lemma PatchedFields(tls: Tls, patch: TlsPatch)
    ensures var r := Patched(tls, patch);
            && (if patch.enabled.Some? then Some(r.enabled) == patch.enabled else r.enabled == tls.enabled)
            && r.reality == (if patch.reality.Some? then patch.reality else tls.reality)
            && r.insecure == (if patch.insecure.Some? then patch.insecure else tls.insecure)
            && r.disableSni == (if patch.disableSni.Some? then patch.disableSni else tls.disableSni)
            && r.utls == (if patch.utls.Some? then patch.utls else tls.utls)
            && r.serverName == (if patch.serverName.Some? then patch.serverName else tls.serverName)
            && r.alpn == (if patch.alpn.Some? then patch.alpn else tls.alpn)
  {
  }

  /** Without a profile the address keeps its own TLS fields; with one they override it. */
  function AddrTlsOf(tls: Option<Tls>, patch: Option<TlsPatch>): Option<Tls> {
    match (tls, patch)
    case (None, None) => None
    case (None, Some(p)) => Some(Patched(NO_TLS, p))
    case (Some(t), None) => Some(t)
    case (Some(t), Some(p)) => Some(Patched(t, p))
  }

  /** An address has TLS settings when the inbound has a profile or it has fields of its own; without own
      fields they are the profile's, and without a profile every field it does not set is absent. */
  lemma AddrTlsFields(tls: Option<Tls>, patch: Option<TlsPatch>)
    ensures AddrTlsOf(tls, patch).Some? <==> tls.Some? || patch.Some?
    ensures patch.None? ==> AddrTlsOf(tls, patch) == tls
    ensures patch.Some? && tls.Some? ==> AddrTlsOf(tls, patch) == Some(Patched(tls.value, patch.value))
    ensures patch.Some? && tls.None? ==>
              var r := AddrTlsOf(tls, patch).value;
              && (r.enabled <==> patch.value.enabled == Some(true)) && r.reality == patch.value.reality
              && r.insecure == patch.value.insecure && r.disableSni == patch.value.disableSni
              && r.utls == patch.value.utls && r.serverName == patch.value.serverName && r.alpn == patch.value.alpn
  {
  }

  /** The addresses links are printed for: the inbound itself, or its extra addresses with the tag in
      front of their remarks. */
  ghost predicate Prepared(addrs: seq<Addr>, stored: seq<StoredAddr>, hostname: string, listenPort: nat, tag: string,
                           tls: Option<Tls>) {
    if stored == [] then addrs == [Addr(hostname, listenPort, tag, tls)]
    else
      && |addrs| == |stored|
      && forall k :: 0 <= k < |stored| ==>
           addrs[k].server == stored[k].server && addrs[k].port == stored[k].port
           && addrs[k].remark == tag + stored[k].remark && addrs[k].tls == AddrTlsOf(tls, stored[k].tls)
  }

  method PrepareAddrs(stored: seq<StoredAddr>, hostname: string, listenPort: nat, tag: string, tls: Option<Tls>)
    returns (addrs: seq<Addr>)
    ensures Prepared(addrs, stored, hostname, listenPort, tag, tls)
  {
    if |stored| == 0 {
      return [Addr(hostname, listenPort, tag, tls)];
    }
    addrs := [];
    for i := 0 to |stored|
      invariant |addrs| == i
      invariant forall k :: 0 <= k < i ==>
                  addrs[k].server == stored[k].server && addrs[k].port == stored[k].port
                  && addrs[k].remark == tag + stored[k].remark && addrs[k].tls == AddrTlsOf(tls, stored[k].tls)
    {
      var addr := stored[i];
      var addrTls: Option<Tls> := None;
      if tls.Some? {
        addrTls := tls;
        if addr.tls.Some? {
          addrTls := Some(Patched(tls.value, addr.tls.value));
        }
      } else if addr.tls.Some? {
        addrTls := Some(Patched(NO_TLS, addr.tls.value));
      }
      addrs := addrs + [Addr(addr.server, addr.port, tag + addr.remark, addrTls)];
    }
  }

  // ---------- the printers ----------

  /** A list of links, or the crash on an unparsable URI. */
  ghost predicate Prints(r: Option<seq<string>>, addrs: seq<Addr>, uri: Addr -> Option<string>) {
    && (r.None? <==> exists a :: a in addrs && uri(a).None?)
    && (r.Some? ==> |r.value| == |addrs| && forall k :: 0 <= k < |addrs| ==> uri(addrs[k]) == Some(r.value[k]))
  }

  method GetTlsParams(before: seq<LinkParam>, tls: Tls, insecureKey: Key) returns (params: seq<LinkParam>)
    ensures params == before + TlsParams(tls, insecureKey)
  {
    hide SecurityParams, HelloParams;
    var security := GetSecurityParams(tls, insecureKey);
    var hello := GetHelloParams(tls);
    params := before + security + hello;
  }

  method GetSecurityParams(tls: Tls, insecureKey: Key) returns (params: seq<LinkParam>)
    ensures params == SecurityParams(tls, insecureKey)
  {
    if tls.reality.Some? && tls.reality.value.enabled {
      params := [LinkParam(Security, "reality")];
      if tls.reality.value.publicKey.Some? {
        params := params + [LinkParam(Pbk, tls.reality.value.publicKey.value)];
      }
      if tls.reality.value.shortId.Some? {
        params := params + [LinkParam(Sid, tls.reality.value.shortId.value)];
      }
    } else {
      params := [LinkParam(Security, "tls")];
      if tls.insecure == Some(true) {
        params := params + [LinkParam(insecureKey, "1")];
      }
      if tls.disableSni == Some(true) {
        params := params + [LinkParam(DisableSni, "1")];
      }
    }
  }

  method GetHelloParams(tls: Tls) returns (params: seq<LinkParam>)
    ensures params == HelloParams(tls)
  {
    params := [];
    if tls.utls.Some? {
      if tls.utls.value.fingerprint.Some? {
        params := params + [LinkParam(Fp, tls.utls.value.fingerprint.value)];
      }
    }
    if tls.serverName.Some? {
      params := params + [LinkParam(Sni, tls.serverName.value)];
    }
    if tls.alpn.Some? {
      params := params + [LinkParam(Alpn, Join(tls.alpn.value, ','))];
    }
  }

  method GetTransportParams(t: Transport) returns (params: seq<LinkParam>)
    ensures params == TransportParams(t)
  {
    var transportType := if t.kind.Some? then t.kind.value else "tcp";
    params := [LinkParam(Type, transportType)];
    if transportType == "tcp" {
      return;
    }
    if transportType == "http" {
      if t.hosts.Some? {
        params := params + [LinkParam(Host_, Join(t.hosts.value, ','))];
      }
      if t.path.Some? {
        params := params + [LinkParam(Path_, t.path.value)];
      }
    } else if transportType == "ws" {
      if t.path.Some? {
        params := params + [LinkParam(Path_, t.path.value)];
      }
      if t.headerHost.Some? {
        params := params + [LinkParam(Host_, t.headerHost.value)];
      }
    } else if transportType == "grpc" {
      if t.serviceName.Some? {
        params := params + [LinkParam(ServiceName, t.serviceName.value)];
      }
    } else if transportType == "httpupgrade" {
      if t.host.Some? {
        params := params + [LinkParam(Host_, t.host.value)];
      }
      if t.path.Some? {
        params := params + [LinkParam(Path_, t.path.value)];
      }
    }
  }

  method Hysteria2Link(user: UserConfig, inb: InboundOptions, addrs: seq<Addr>) returns (r: Option<seq<string>>)
    ensures inb.outJson.None? ==> r == Some([])
    ensures inb.outJson.Some? ==> Prints(r, addrs, (a: Addr) => Hy2Uri(user, inb, inb.outJson.value, a))
  {
    hide TlsParams, AddParams, BareUri, Join;
    var password := OrEmpty(user.password);
    var links: seq<string> := [];
    for i := 0 to |addrs|
      invariant inb.outJson.Some? || links == []
      invariant inb.outJson.Some? ==> |links| == i
      invariant inb.outJson.Some? ==> forall k :: 0 <= k < i ==>
                  Hy2Uri(user, inb, inb.outJson.value, addrs[k]) == Some(links[k])
    {
      var addr := addrs[i];
      var params := Hy2RateParams(inb);
      if addr.tls.Some? {
        params := GetTlsParams(params, addr.tls.value, Insecure);
      }
      if inb.outJson.None? {
        return Some([]);
      }
      var rest := Hy2RestParams(inb, inb.outJson.value);
      var link := AddParams(BareUri("hysteria2", password, addr.server, addr.port), params + rest, addr.remark);
      assert params == Hy2Rates(inb) + AddrTls(addr, Insecure);
      assert addr in addrs && link == Hy2Uri(user, inb, inb.outJson.value, addr);
      if link.None? {
        return None;
      }
      links := links + [link.value];
    }
    r := Some(links);
  }

  method Hy2RateParams(inb: InboundOptions) returns (params: seq<LinkParam>)
    ensures params == Hy2Rates(inb)
  {
    params := [];
    if inb.upMbps.Some? {
      params := params + [LinkParam(DownMbps, Itoa(inb.upMbps.value))];
    }
    if inb.downMbps.Some? {
      params := params + [LinkParam(UpMbps, Itoa(inb.downMbps.value))];
    }
  }

  method Hy2RestParams(inb: InboundOptions, out: OutJson) returns (params: seq<LinkParam>)
    ensures params == Hy2Rest(inb, out)
  {
    params := [];
    if inb.obfs.Some? {
      if inb.obfs.value.kind.Some? {
        params := params + [LinkParam(Obfs, inb.obfs.value.kind.value)];
      }
      if inb.obfs.value.password.Some? {
        params := params + [LinkParam(ObfsPassword, inb.obfs.value.password.value)];
      }
    }
    if inb.tcpFastOpen {
      params := params + [LinkParam(FastOpen, "1")];
    } else {
      params := params + [LinkParam(FastOpen, "0")];
    }
    if out.serverPorts.Some? {
      params := params + [LinkParam(MPort, Join(out.serverPorts.value, ','))];
    }
  }

  method AnyTlsLink(user: UserConfig, addrs: seq<Addr>) returns (r: Option<seq<string>>)
    ensures Prints(r, addrs, (a: Addr) => AnyTlsUri(user, a))
  {
    hide TlsParams, AddParams, BareUri;
    var links: seq<string> := [];
    for i := 0 to |addrs|
      invariant |links| == i && forall k :: 0 <= k < i ==> AnyTlsUri(user, addrs[k]) == Some(links[k])
    {
      var addr := addrs[i];
      var params: seq<LinkParam> := [];
      if addr.tls.Some? {
        params := GetTlsParams(params, addr.tls.value, Insecure);
      }
      var link := AddParams(BareUri("anytls", OrEmpty(user.password), addr.server, addr.port), params, addr.remark);
      assert params == AddrTls(addr, Insecure);
      assert addr in addrs && link == AnyTlsUri(user, addr);
      if link.None? {
        return None;
      }
      links := links + [link.value];
    }
    r := Some(links);
  }

  method TuicLink(user: UserConfig, inb: InboundOptions, addrs: seq<Addr>) returns (r: Option<seq<string>>)
    ensures Prints(r, addrs, (a: Addr) => TuicUri(user, inb, a))
  {
    hide TlsParams, AddParams, BareUri;
    var userinfo := OrEmpty(user.uuid) + ":" + OrEmpty(user.password);
    var links: seq<string> := [];
    for i := 0 to |addrs|
      invariant |links| == i && forall k :: 0 <= k < i ==> TuicUri(user, inb, addrs[k]) == Some(links[k])
    {
      var addr := addrs[i];
      var params: seq<LinkParam> := [];
      if addr.tls.Some? {
        params := GetTlsParams(params, addr.tls.value, Insecure);
      }
      assert params == AddrTls(addr, Insecure);
      var rest: seq<LinkParam> := [];
      if inb.congestionControl.Some? {
        rest := rest + [LinkParam(CongestionControl, inb.congestionControl.value)];
      }
      if inb.outJson.Some? && inb.outJson.value.udpRelayMode.Some? && inb.outJson.value.udpRelayMode.value != "" {
        rest := rest + [LinkParam(UdpRelayMode, inb.outJson.value.udpRelayMode.value)];
      }
      assert rest == TuicParams(inb);
      var link := AddParams(BareUri("tuic", userinfo, addr.server, addr.port), params + rest, addr.remark);
      assert addr in addrs && link == TuicUri(user, inb, addr);
      if link.None? {
        return None;
      }
      links := links + [link.value];
    }
    r := Some(links);
  }

  method VlessLink(user: UserConfig, inb: InboundOptions, addrs: seq<Addr>) returns (r: Option<seq<string>>)
    ensures Prints(r, addrs, (a: Addr) => VlessUri(user, inb, a))
  {
    hide TlsParams, AddParams, BareUri, TransportParams;
    var baseParams := GetTransportParams(inb.transport);
    FirstIsKind(inb.transport);
    var isTcp := |baseParams| == 1 && baseParams[0].value == "tcp";
    var links: seq<string> := [];
    for i := 0 to |addrs|
      invariant |links| == i && forall k :: 0 <= k < i ==> VlessUri(user, inb, addrs[k]) == Some(links[k])
    {
      var addr := addrs[i];
      var params := baseParams;
      if addr.tls.Some? && addr.tls.value.enabled {
        params := GetTlsParams(params, addr.tls.value, AllowInsecure);
        if user.flow.Some? && isTcp {
          params := params + [LinkParam(Flow, user.flow.value)];
        }
      }
      assert params == baseParams + StreamTls(addr) + VlessFlow(user, inb, addr);
      var link := AddParams(BareUri("vless", OrEmpty(user.uuid), addr.server, addr.port), params, addr.remark);
      assert addr in addrs && link == VlessUri(user, inb, addr);
      if link.None? {
        return None;
      }
      links := links + [link.value];
    }
    r := Some(links);
  }

  lemma FirstIsKind(t: Transport)
    ensures TransportParams(t) != [] && TransportParams(t)[0].value == Kind(t)
  {
  }

  method TrojanLink(user: UserConfig, inb: InboundOptions, addrs: seq<Addr>) returns (r: Option<seq<string>>)
    ensures Prints(r, addrs, (a: Addr) => TrojanUri(user, inb, a))
  {
    hide TlsParams, AddParams, BareUri, TransportParams;
    var baseParams := GetTransportParams(inb.transport);
    var links: seq<string> := [];
    for i := 0 to |addrs|
      invariant |links| == i && forall k :: 0 <= k < i ==> TrojanUri(user, inb, addrs[k]) == Some(links[k])
    {
      var addr := addrs[i];
      var params := baseParams;
      if addr.tls.Some? && addr.tls.value.enabled {
        params := GetTlsParams(params, addr.tls.value, AllowInsecure);
      }
      assert params == baseParams + StreamTls(addr);
      var link := AddParams(BareUri("trojan", OrEmpty(user.password), addr.server, addr.port), params, addr.remark);
      assert addr in addrs && link == TrojanUri(user, inb, addr);
      if link.None? {
        return None;
      }
      links := links + [link.value];
    }
    r := Some(links);
  }

  function UserOf(users: map<string, UserConfig>, kind: string): UserConfig {
    if kind in users then users[kind] else UserConfig(None, None, None)
  }

  const PROTOCOLS := {"hysteria2", "tuic", "vless", "anytls", "trojan"}

  /** The dispatch of the generator; `others` stands for the printers of the other types, which are not
      part of this model. */
  method LinkGenerator(kind: string, users: map<string, UserConfig>, inb: InboundOptions, stored: seq<StoredAddr>,
                       hostname: string, listenPort: nat, tag: string, tls: Option<Tls>, others: Option<seq<string>>)
    returns (r: Option<seq<string>>, addrs: seq<Addr>)
    ensures Prepared(addrs, stored, hostname, listenPort, tag, tls)
    ensures kind == "hysteria2" && inb.outJson.Some? ==>
              Prints(r, addrs, (a: Addr) => Hy2Uri(UserOf(users, kind), inb, inb.outJson.value, a))
    ensures kind == "tuic" ==> Prints(r, addrs, (a: Addr) => TuicUri(UserOf(users, kind), inb, a))
    ensures kind == "vless" ==> Prints(r, addrs, (a: Addr) => VlessUri(UserOf(users, kind), inb, a))
    ensures kind == "anytls" ==> Prints(r, addrs, (a: Addr) => AnyTlsUri(UserOf(users, kind), a))
    ensures kind == "trojan" ==> Prints(r, addrs, (a: Addr) => TrojanUri(UserOf(users, kind), inb, a))
    ensures kind == "hysteria2" && inb.outJson.None? ==> r == Some([])
    ensures kind !in PROTOCOLS ==> r == others
  {
    hide Prints, Prepared, UserOf, Hy2Uri, TuicUri, VlessUri, AnyTlsUri, TrojanUri;
    addrs := PrepareAddrs(stored, hostname, listenPort, tag, tls);
    var user := UserOf(users, kind);
    if kind == "hysteria2" {
      r := Hysteria2Link(user, inb, addrs);
    } else if kind == "tuic" {
      r := TuicLink(user, inb, addrs);
    } else if kind == "vless" {
      r := VlessLink(user, inb, addrs);
    } else if kind == "anytls" {
      r := AnyTlsLink(user, addrs);
    } else if kind == "trojan" {
      r := TrojanLink(user, inb, addrs);
    } else {
      r := others;
    }
  }
}
