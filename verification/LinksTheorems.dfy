/** The round-trip theorems, one per protocol. */
module LinksTheorems {
  import opened Model
  import opened Text
  import opened PercentEncoding
  import opened Urls
  import opened Queries
  import opened ShareUrls
  import opened Links
  import opened LinksRoundTrip
  import LP = LinksParsed

  // ---------- hysteria2 ----------

  ghost predicate SafeRate(rate: Option<nat>) {
    rate.Some? ==> rate.value <= MAX_INT
  }

  ghost predicate SafeHy2(inb: InboundOptions, out: OutJson) {
    && SafeRate(inb.upMbps) && SafeRate(inb.downMbps)
    && (inb.obfs.Some? ==> OptOctets(inb.obfs.value.kind) && OptOctets(inb.obfs.value.password))
    && RawList(out.serverPorts)
  }

  lemma DigitsOctets(n: nat)
    ensures Octets(Itoa(n))
  {
  }

  lemma Hy2RatesSafe(inb: InboundOptions)
    ensures SafeParams(Hy2Rates(inb)) && NoTlsKeys(Hy2Rates(inb))
  {
    if inb.upMbps.Some? {
      DigitsOctets(inb.upMbps.value);
    }
    if inb.downMbps.Some? {
      DigitsOctets(inb.downMbps.value);
    }
  }

  lemma Hy2RestSafe(inb: InboundOptions, out: OutJson)
    requires SafeHy2(inb, out)
    ensures SafeParams(Hy2Rest(inb, out)) && NoTlsKeys(Hy2Rest(inb, out))
  {
    hide Octets, SafeParams, Opt, RawList, Joined;
    var kind := if inb.obfs.Some? then inb.obfs.value.kind else None;
    var password := if inb.obfs.Some? then inb.obfs.value.password else None;
    var fast := Some(if inb.tcpFastOpen then "1" else "0");
    WordOctets();
    JoinedRaw(out.serverPorts);
    OptSafe(Obfs, kind);
    OptSafe(ObfsPassword, password);
    OptSafe(FastOpen, fast);
    OptSafe(MPort, Joined(out.serverPorts));
    SafeAppend(Opt(Obfs, kind), Opt(ObfsPassword, password));
    SafeAppend(Opt(Obfs, kind) + Opt(ObfsPassword, password), Opt(FastOpen, fast));
    SafeAppend(Opt(Obfs, kind) + Opt(ObfsPassword, password) + Opt(FastOpen, fast),
               Opt(MPort, Joined(out.serverPorts)));
    Hy2RestKeys(inb, out);
  }

  lemma Hy2RestKeys(inb: InboundOptions, out: OutJson)
    ensures forall p :: p in Hy2Rest(inb, out) ==> p.key.Obfs? || p.key.ObfsPassword? || p.key.FastOpen? || p.key.MPort?
  {
  }

  lemma Hy2Lookup(inb: InboundOptions, addr: Addr, out: OutJson, k: Key)
    requires !TlsKey(k)
    ensures Lookup(Hy2Rates(inb) + AddrTls(addr, Insecure) + Hy2Rest(inb, out), k) ==
            match k
            case DownMbps => OrEmpty(Rate(inb.upMbps))
            case UpMbps => OrEmpty(Rate(inb.downMbps))
            case Obfs => OrEmpty(if inb.obfs.Some? then inb.obfs.value.kind else None)
            case ObfsPassword => OrEmpty(if inb.obfs.Some? then inb.obfs.value.password else None)
            case FastOpen => if inb.tcpFastOpen then "1" else "0"
            case MPort => OrEmpty(Joined(out.serverPorts))
            case _ => ""
  {
    hide Lookup, Opt, Joined, Itoa, TlsParams, SafeParams;
    var rates, rest := Hy2Rates(inb), Hy2Rest(inb, out);
    Hy2RatesSafe(inb);
    Hy2RestKeys(inb, out);
    AroundTls(rates, addr.tls, Insecure, rest, k);
    Hy2RatesLookup(inb, rest, k);
    Hy2RestLookup(inb, out, k);
  }

  lemma Hy2RatesLookup(inb: InboundOptions, rest: seq<LinkParam>, k: Key)
    ensures Lookup(Hy2Rates(inb) + rest, k) ==
            if k == DownMbps && inb.upMbps.Some? then Rate(inb.upMbps).value
            else if k == UpMbps && inb.downMbps.Some? then Rate(inb.downMbps).value
            else Lookup(rest, k)
  {
    hide Lookup, Opt;
    var down, up := Rate(inb.upMbps), Rate(inb.downMbps);
    assert Hy2Rates(inb) + rest == Opt(DownMbps, down) + (Opt(UpMbps, up) + rest);
    LookupOpt(DownMbps, down, Opt(UpMbps, up) + rest, k);
    LookupOpt(UpMbps, up, rest, k);
  }

  lemma Hy2RestLookup(inb: InboundOptions, out: OutJson, k: Key)
    ensures Lookup(Hy2Rest(inb, out), k) ==
            match k
            case Obfs => OrEmpty(if inb.obfs.Some? then inb.obfs.value.kind else None)
            case ObfsPassword => OrEmpty(if inb.obfs.Some? then inb.obfs.value.password else None)
            case FastOpen => if inb.tcpFastOpen then "1" else "0"
            case MPort => OrEmpty(Joined(out.serverPorts))
            case _ => ""
  {
    hide Lookup, Opt, Joined;
    var kind := if inb.obfs.Some? then inb.obfs.value.kind else None;
    var password := if inb.obfs.Some? then inb.obfs.value.password else None;
    var fast := Some(if inb.tcpFastOpen then "1" else "0");
    var r2 := Opt(FastOpen, fast) + Opt(MPort, Joined(out.serverPorts));
    var r1 := Opt(ObfsPassword, password) + r2;
    assert Hy2Rest(inb, out) == Opt(Obfs, kind) + r1;
    LookupLast(MPort, Joined(out.serverPorts), k);
    LookupOpt(FastOpen, fast, Opt(MPort, Joined(out.serverPorts)), k);
    LookupOpt(ObfsPassword, password, r2, k);
    LookupOpt(Obfs, kind, r1, k);
  }

  lemma RateRoundTrip(rate: Option<nat>)
    requires SafeRate(rate)
    ensures LP.Positive(Atoi(OrEmpty(Rate(rate)))) == RateMeaning(rate)
  {
    if rate.Some? {
      AtoiItoa(rate.value);
    }
  }

  lemma PortsRoundTrip(ports: Option<seq<string>>)
    requires RawList(ports)
    ensures LP.Items(ReplaceChar(OrEmpty(Joined(ports)), '-', ':')) == PortsMeaning(ports)
  {
    if ports.Some? && ports.value != [] {
      var replaced := ReplaceEach(ports.value, '-', ':');
      ReplaceJoin(ports.value, ',', '-', ':');
      ReplaceEachChars(ports.value, '-', ':', ',');
      assert replaced != [""] by {
        ReplaceChars(ports.value[0], '-', ':');
        assert |ports.value| == 1 ==> ports.value == [ports.value[0]];
      }
      ItemsJoined(Some(replaced));
    }
  }

  /** The server's upload is the client's download. */
  function Hy2Meaning(user: UserConfig, inb: InboundOptions, out: OutJson, addr: Addr, i: nat): Outbound {
    Hysteria2(TagMeaning(addr, i), addr.server, addr.port, OrEmpty(user.password), AddrMeaning(addr),
              RateMeaning(inb.upMbps), RateMeaning(inb.downMbps), ObfsMeaning(inb.obfs),
              PortsMeaning(out.serverPorts), inb.tcpFastOpen)
  }

  /** A printed hysteria2 link parses to the outbound it stands for; up and down change sides. */
  lemma Hy2RoundTrip(user: UserConfig, inb: InboundOptions, out: OutJson, addr: Addr, i: nat)
    requires UserSafe(OrEmpty(user.password)) && SafeAddr(addr) && SafeHy2(inb, out)
    ensures var link := Hy2Uri(user, inb, out, addr);
            && link.Some?
            && LP.GetOutbound(link.value, i) == Some(Hy2Meaning(user, inb, out, addr, i))
  {
    hide ShareLink, ParseUrl, ParseQuery, Named, Lookup, LP.GetTls, AddrMeaning, SafeAddr, Octets, UserSafe, Hy2Rates,
         Hy2Rest, AddrTls, LP.Tag, UserName, Password, LP.Server, LP.Port, TagMeaning, Reads, Atoi, LP.Items, RawList,
         PortsMeaning, RateMeaning, LP.Positive, LP.OrTls, Joined, Rate, ReplaceChar, SafeRate;
    var password := OrEmpty(user.password);
    var params := Hy2Rates(inb) + AddrTls(addr, Insecure) + Hy2Rest(inb, out);
    SafeReads(password);
    Hy2ParamsSafe(inb, addr, out);
    Schemes();
    LinkParsed("hysteria2", password, Urls.User(password, None), addr, params, i);
    AllNamed(params);
    Hy2RatesSafe(inb);
    Hy2RestSafe(inb, out);
    AddrTlsRoundTrip(Hy2Rates(inb), addr, Hy2Rest(inb, out));
    Hy2Lookup(inb, addr, out, DownMbps);
    Hy2Lookup(inb, addr, out, UpMbps);
    Hy2Lookup(inb, addr, out, Obfs);
    Hy2Lookup(inb, addr, out, ObfsPassword);
    Hy2Lookup(inb, addr, out, FastOpen);
    Hy2Lookup(inb, addr, out, MPort);
    RateRoundTrip(inb.upMbps);
    RateRoundTrip(inb.downMbps);
    PortsRoundTrip(out.serverPorts);
    Words();
  }

  /** Printed raw, exactly the safe passwords come back. */
  lemma Hy2PasswordExact(user: UserConfig, inb: InboundOptions, out: OutJson, addr: Addr, i: nat)
    requires SafeAddr(addr) && SafeHy2(inb, out)
    ensures var link := Hy2Uri(user, inb, out, addr);
            link.Some? && LP.GetOutbound(link.value, i).Some? && LP.GetOutbound(link.value, i).value.Hysteria2?
            && LP.GetOutbound(link.value, i).value.password == OrEmpty(user.password)
            <==> UserSafe(OrEmpty(user.password))
  {
    hide AddParams, ParseUrl, UserSafe, Hy2Rates, Hy2Rest, AddrTls, SafeHy2, LP.GetTls, LP.Tag, LP.Server, LP.Port,
         LP.Items,
         BareUri, OrEmpty, ParseQuery, Get, AddrMeaning, PortsMeaning, SafeTls, LP.GetTransport;
    Hy2ParamsSafe(inb, addr, out);
    Schemes();
    UserSurvivesExactly("hysteria2", OrEmpty(user.password), addr.server, addr.port,
                        Hy2Rates(inb) + AddrTls(addr, Insecure) + Hy2Rest(inb, out), addr.remark);
    if UserSafe(OrEmpty(user.password)) {
      Hy2RoundTrip(user, inb, out, addr, i);
    }
  }

  lemma AddrTlsSafe(addr: Addr)
    requires SafeAddr(addr)
    ensures SafeParams(AddrTls(addr, Insecure)) && SafeParams(StreamTls(addr))
  {
    hide TlsParams, SafeTls, PlainHost, Octets;
    if addr.tls.Some? {
      TlsParamsSafe(addr.tls.value, Insecure);
      TlsParamsSafe(addr.tls.value, AllowInsecure);
    }
  }

  lemma Hy2ParamsSafe(inb: InboundOptions, addr: Addr, out: OutJson)
    requires SafeAddr(addr) && SafeHy2(inb, out)
    ensures SafeParams(Hy2Rates(inb) + AddrTls(addr, Insecure) + Hy2Rest(inb, out))
  {
    hide SafeParams, Hy2Rates, Hy2Rest, AddrTls, SafeAddr, SafeHy2;
    Hy2RatesSafe(inb);
    AddrTlsSafe(addr);
    Hy2RestSafe(inb, out);
    SafeAppend(Hy2Rates(inb), AddrTls(addr, Insecure));
    SafeAppend(Hy2Rates(inb) + AddrTls(addr, Insecure), Hy2Rest(inb, out));
  }

  lemma Schemes()
    ensures PlainScheme("hysteria2") && PlainScheme("anytls") && PlainScheme("tuic") && PlainScheme("vless")
            && PlainScheme("trojan")
    ensures "hysteria2" != "vless" && "hysteria2" != "trojan"
    ensures "anytls" != "vless" && "anytls" != "trojan" && "anytls" != "hy2" && "anytls" != "hysteria2"
    ensures "tuic" != "vless" && "tuic" != "trojan" && "tuic" != "hy2" && "tuic" != "hysteria2" && "tuic" != "anytls"
    ensures "trojan" != "vless"
  {
    assert "trojan"[0] != "vless"[0] && "tuic"[1] != "trojan"[1] && |"anytls"| != |"hysteria2"|;
    assert "anytls"[0] != "vless"[0] && "anytls"[0] != "trojan"[0] && "anytls"[0] != "hy2"[0];
    assert "tuic"[0] != "hy2"[0] && "tuic"[0] != "anytls"[0] && "tuic"[0] != "vless"[0];
  }

  // ---------- anytls ----------

  function AnyTlsMeaning(user: UserConfig, addr: Addr, i: nat): Outbound {
    AnyTls(TagMeaning(addr, i), addr.server, addr.port, OrEmpty(user.password), AddrMeaning(addr))
  }

  lemma AnyTlsRoundTrip(user: UserConfig, addr: Addr, i: nat)
    requires UserSafe(OrEmpty(user.password)) && SafeAddr(addr)
    ensures var link := AnyTlsUri(user, addr);
            && link.Some?
            && LP.GetOutbound(link.value, i) == Some(AnyTlsMeaning(user, addr, i))
  {
    hide ShareLink, ParseUrl, ParseQuery, Named, Lookup, LP.GetTls, AddrMeaning, SafeAddr, Octets, UserSafe, AddrTls,
         LP.Tag,
         UserName, Password, LP.Server, LP.Port, TagMeaning, Reads, LP.OrTls;
    var password := OrEmpty(user.password);
    var params := AddrTls(addr, Insecure);
    SafeReads(password);
    AddrTlsSafe(addr);
    Schemes();
    LinkParsed("anytls", password, Urls.User(password, None), addr, params, i);
    AllNamed(params);
    AddrTlsRoundTrip([], addr, []);
    assert [] + params + [] == params;
  }

  // ---------- tuic ----------

  lemma TuicParamsSafe(inb: InboundOptions)
    requires SafeTuic(inb)
    ensures SafeParams(TuicParams(inb)) && NoTlsKeys(TuicParams(inb))
  {
  }

  lemma TuicLookup(inb: InboundOptions, k: Key)
    ensures Lookup(TuicParams(inb), k) ==
            match k
            case CongestionControl => OrEmpty(inb.congestionControl)
            case UdpRelayMode => OrEmpty(if inb.outJson.Some? then inb.outJson.value.udpRelayMode else None)
            case _ => ""
  {
    hide Lookup, Opt;
    var mode := if inb.outJson.Some? then inb.outJson.value.udpRelayMode else None;
    LookupLast(UdpRelayMode, if mode == Some("") then None else mode, k);
    LookupOpt(CongestionControl, inb.congestionControl, Opt(UdpRelayMode, if mode == Some("") then None else mode), k);
  }

  ghost predicate SafeTuic(inb: InboundOptions) {
    OptOctets(inb.congestionControl) && (inb.outJson.Some? ==> OptOctets(inb.outJson.value.udpRelayMode))
  }

  function TuicMeaning(user: UserConfig, inb: InboundOptions, addr: Addr, i: nat): Outbound {
    Tuic(TagMeaning(addr, i), addr.server, addr.port, OrEmpty(user.uuid), OrEmpty(user.password),
         OrEmpty(inb.congestionControl),
         OrEmpty(if inb.outJson.Some? then inb.outJson.value.udpRelayMode else None), AddrMeaning(addr))
  }

  lemma TuicRoundTrip(user: UserConfig, inb: InboundOptions, addr: Addr, i: nat)
    requires UserSafe(OrEmpty(user.uuid)) && PasswordSafe(OrEmpty(user.password)) && SafeAddr(addr) && SafeTuic(inb)
    ensures var link := TuicUri(user, inb, addr);
            && link.Some?
            && LP.GetOutbound(link.value, i) == Some(TuicMeaning(user, inb, addr, i))
  {
    hide ShareLink, ParseUrl, ParseQuery, Named, Lookup, LP.GetTls, AddrMeaning, SafeAddr, Octets, UserSafe, AddrTls,
         LP.Tag,
         UserName, Password, LP.Server, LP.Port, TagMeaning, Reads, LP.OrTls, PasswordSafe, TuicParams;
    var uuid, password := OrEmpty(user.uuid), OrEmpty(user.password);
    var params := AddrTls(addr, Insecure) + TuicParams(inb);
    PasswordReads(uuid, password);
    AddrTlsSafe(addr);
    TuicParamsSafe(inb);
    SafeAppend(AddrTls(addr, Insecure), TuicParams(inb));
    Schemes();
    LinkParsed("tuic", uuid + ":" + password, Urls.User(uuid, Some(password)), addr, params, i);
    AllNamed(params);
    assert [] + AddrTls(addr, Insecure) + TuicParams(inb) == params && [] + TuicParams(inb) == TuicParams(inb);
    AddrTlsRoundTrip([], addr, TuicParams(inb));
    TuicAround(inb, addr, CongestionControl);
    TuicAround(inb, addr, UdpRelayMode);
    TuicLookup(inb, CongestionControl);
    TuicLookup(inb, UdpRelayMode);
  }

  /** Printed raw, exactly the safe credentials come back; the password may hold colons. */
  lemma TuicCredentialsExact(user: UserConfig, inb: InboundOptions, addr: Addr, i: nat)
    requires SafeAddr(addr) && SafeTuic(inb)
    ensures var link := TuicUri(user, inb, addr);
            link.Some? && LP.GetOutbound(link.value, i).Some? && LP.GetOutbound(link.value, i).value.Tuic?
            && LP.GetOutbound(link.value, i).value.uuid == OrEmpty(user.uuid)
            && LP.GetOutbound(link.value, i).value.password == OrEmpty(user.password)
            <==> UserSafe(OrEmpty(user.uuid)) && PasswordSafe(OrEmpty(user.password))
  {
    hide AddParams, ParseUrl, UserSafe, PasswordSafe, TuicParams, AddrTls, LP.GetTls, LP.Tag, LP.Server, LP.Port,
         LP.Items, BareUri, OrEmpty, ParseQuery, Get, AddrMeaning, SafeTls, LP.GetTransport, SafeTuic, UserName,
         Password;
    var uuid, password := OrEmpty(user.uuid), OrEmpty(user.password);
    AddrTlsSafe(addr);
    TuicParamsSafe(inb);
    SafeAppend(AddrTls(addr, Insecure), TuicParams(inb));
    Schemes();
    PairSurvivesExactly("tuic", uuid, password, addr.server, addr.port,
                        AddrTls(addr, Insecure) + TuicParams(inb), addr.remark);
    if UserSafe(uuid) && PasswordSafe(password) {
      TuicRoundTrip(user, inb, addr, i);
    }
  }

  lemma TuicAround(inb: InboundOptions, addr: Addr, k: Key)
    requires k.CongestionControl? || k.UdpRelayMode?
    ensures Lookup(AddrTls(addr, Insecure) + TuicParams(inb), k) == Lookup(TuicParams(inb), k)
  {
    hide Lookup, TlsParams;
    assert [] + AddrTls(addr, Insecure) + TuicParams(inb) == AddrTls(addr, Insecure) + TuicParams(inb);
    assert [] + TuicParams(inb) == TuicParams(inb);
    AroundTls([], addr.tls, Insecure, TuicParams(inb), k);
  }

  // ---------- vless and trojan ----------

  predicate TransportKey(k: Key) {
    k.Type? || k.Host_? || k.Path_? || k.ServiceName? || k.HeaderType?
  }

  lemma TransportParamKeys(t: Transport)
    ensures forall p :: p in TransportParams(t) ==> TransportKey(p.key) && !p.key.HeaderType?
    ensures NoTlsKeys(TransportParams(t))
  {
    hide Opt, Joined, Kind;
    forall key: Key, value: Option<string>, p | p in Opt(key, value) ensures p.key == key {
      OptKey(key, value);
    }
  }

  lemma Kinds()
    ensures "tcp" != "http" && "tcp" != "ws" && "tcp" != "grpc" && "tcp" != "httpupgrade" && "tcp" != "quic"
            && "tcp" != "h2"
    ensures "http" != "ws" && "http" != "grpc" && "http" != "httpupgrade" && "http" != "quic" && "http" != ""
            && "http" != "h2"
    ensures "ws" != "grpc" && "ws" != "httpupgrade" && "ws" != "quic" && "ws" != "" && "ws" != "h2"
    ensures "grpc" != "httpupgrade" && "grpc" != "quic" && "grpc" != "" && "grpc" != "h2"
    ensures "httpupgrade" != "quic" && "httpupgrade" != "" && "httpupgrade" != "h2" && "quic" != "" && "quic" != "h2"
  {
    assert "tcp"[0] != "quic"[0] && "http"[0] != "grpc"[0] && "http"[0] != "quic"[0] && "grpc"[0] != "quic"[0];
    assert "ws"[0] != "h2"[0];
  }

  lemma KindsLower(kind: string)
    requires kind in {"tcp", "http", "ws", "grpc", "httpupgrade", "quic"}
    ensures ToLower(kind) == kind
  {
    assert forall c :: c in kind ==> 'a' <= c <= 'z';
    LowerPlain(kind);
  }

  /** The transport parameters, looked up. */
  lemma TransportLookup(t: Transport, k: Key)
    requires TransportKey(k)
    ensures Lookup(TransportParams(t), k) ==
            (var kind := Kind(t);
             match k
             case Type => kind
             case Host_ =>
               if kind == "http" then OrEmpty(Joined(t.hosts))
               else if kind == "ws" then OrEmpty(t.headerHost)
               else if kind == "httpupgrade" then OrEmpty(t.host) else ""
             case Path_ => if kind == "http" || kind == "ws" || kind == "httpupgrade" then OrEmpty(t.path) else ""
             case ServiceName => if kind == "grpc" then OrEmpty(t.serviceName) else ""
             case _ => "")
  {
    hide Lookup, Opt, Joined, Kind;
    var kind := Kind(t);
    Kinds();
    LookupLast(Type, Some(kind), k);
    if kind == "http" {
      LookupLast(Path_, t.path, k);
      LookupOpt(Host_, Joined(t.hosts), Opt(Path_, t.path), k);
      LookupOpt(Type, Some(kind), Opt(Host_, Joined(t.hosts)) + Opt(Path_, t.path), k);
    } else if kind == "ws" {
      LookupLast(Host_, t.headerHost, k);
      LookupOpt(Path_, t.path, Opt(Host_, t.headerHost), k);
      LookupOpt(Type, Some(kind), Opt(Path_, t.path) + Opt(Host_, t.headerHost), k);
    } else if kind == "grpc" {
      LookupLast(ServiceName, t.serviceName, k);
      LookupOpt(Type, Some(kind), Opt(ServiceName, t.serviceName), k);
    } else if kind == "httpupgrade" {
      LookupLast(Path_, t.path, k);
      LookupOpt(Host_, t.host, Opt(Path_, t.path), k);
      LookupOpt(Type, Some(kind), Opt(Host_, t.host) + Opt(Path_, t.path), k);
    }
  }

  lemma TransportRoundTrip(t: Transport, q: seq<Pair>)
    requires SafeTransport(t)
    requires forall k :: TransportKey(k) ==> Get(q, k) == Lookup(TransportParams(t), k)
    ensures LP.GetTransport(Get(q, Type), q) == TransportMeaning(t)
  {
    hide Lookup, Get, TransportParams, Joined, LP.Items, ToLower, Octets, OctetList;
    KindsLower(Kind(t));
    Kinds();
    TransportLookup(t, Type);
    TransportLookup(t, Host_);
    TransportLookup(t, Path_);
    TransportLookup(t, ServiceName);
    TransportLookup(t, HeaderType);
    HostsRoundTrip(t.hosts);
  }

  lemma HostsRoundTrip(hosts: Option<seq<string>>)
    requires OctetList(hosts)
    ensures LP.Items(OrEmpty(Joined(hosts))) == PresentList(hosts)
  {
    ItemsJoined(hosts);
  }

  lemma TransportParamsSafe(t: Transport)
    requires SafeTransport(t)
    ensures SafeParams(TransportParams(t))
  {
    hide Octets, SafeParams, Opt, Joined, Kind, OctetList;
    KindOctets(Kind(t));
    JoinedOctets(t.hosts);
    OptSafe(Type, Some(Kind(t)));
    OptSafe(Host_, Joined(t.hosts));
    OptSafe(Host_, t.headerHost);
    OptSafe(Host_, t.host);
    OptSafe(Path_, t.path);
    OptSafe(ServiceName, t.serviceName);
    var kind := Opt(Type, Some(Kind(t)));
    SafeAppend(Opt(Host_, Joined(t.hosts)), Opt(Path_, t.path));
    SafeAppend(kind, Opt(Host_, Joined(t.hosts)) + Opt(Path_, t.path));
    SafeAppend(Opt(Path_, t.path), Opt(Host_, t.headerHost));
    SafeAppend(kind, Opt(Path_, t.path) + Opt(Host_, t.headerHost));
    SafeAppend(kind, Opt(ServiceName, t.serviceName));
    SafeAppend(Opt(Host_, t.host), Opt(Path_, t.path));
    SafeAppend(kind, Opt(Host_, t.host) + Opt(Path_, t.path));
  }

  lemma KindOctets(kind: string)
    requires kind in {"tcp", "http", "ws", "grpc", "httpupgrade", "quic"}
    ensures Octets(kind)
  {
  }

  /** Parameters around the stream TLS, for keys that are not TLS keys. */
  lemma AroundStream(t: Transport, addr: Addr, post: seq<LinkParam>, k: Key)
    requires NoTlsKeys(post) && !TlsKey(k)
    ensures Lookup(TransportParams(t) + StreamTls(addr) + post, k) == Lookup(TransportParams(t) + post, k)
  {
    hide Lookup, TlsParams, TransportParams;
    TransportParamKeys(t);
    AroundTls(TransportParams(t), if PrintsTls(addr) then addr.tls else None, AllowInsecure, post, k);
  }

  lemma StreamTransport(t: Transport, addr: Addr, post: seq<LinkParam>)
    requires SafeTransport(t) && NoTlsKeys(post) && forall p :: p in post ==> !TransportKey(p.key)
    ensures var q := Named(TransportParams(t) + StreamTls(addr) + post);
            LP.GetTransport(Get(q, Type), q) == TransportMeaning(t)
  {
    hide Lookup, Get, Named, TransportParams, StreamTls, LP.GetTransport, TransportMeaning, SafeTransport, NoTlsKeys;
    var params := TransportParams(t) + StreamTls(addr) + post;
    AllNamed(params);
    forall k | TransportKey(k) ensures Get(Named(params), k) == Lookup(TransportParams(t), k) {
      AroundStream(t, addr, post, k);
      LookupSkip(TransportParams(t), post, k);
    }
    TransportRoundTrip(t, Named(params));
  }

  function TrojanMeaning(user: UserConfig, inb: InboundOptions, addr: Addr, i: nat): Outbound {
    Trojan(TagMeaning(addr, i), addr.server, addr.port, OrEmpty(user.password), StreamMeaning(addr),
           TransportMeaning(inb.transport))
  }

  lemma TrojanRoundTrip(user: UserConfig, inb: InboundOptions, addr: Addr, i: nat)
    requires UserSafe(OrEmpty(user.password)) && SafeAddr(addr) && SafeTransport(inb.transport)
    ensures var link := TrojanUri(user, inb, addr);
            && link.Some?
            && LP.GetOutbound(link.value, i) == Some(TrojanMeaning(user, inb, addr, i))
  {
    hide ShareLink, ParseUrl, ParseQuery, Named, Lookup, Get, LP.GetTls, StreamMeaning, SafeAddr, Octets, UserSafe,
         StreamTls,
         LP.Tag, UserName, Password, LP.Server, LP.Port, TagMeaning, Reads, LP.GetTransport, TransportMeaning,
         TransportParams, SafeTransport;
    var password := OrEmpty(user.password);
    var params := TransportParams(inb.transport) + StreamTls(addr);
    SafeReads(password);
    AddrTlsSafe(addr);
    TransportParamsSafe(inb.transport);
    TransportParamKeys(inb.transport);
    SafeAppend(TransportParams(inb.transport), StreamTls(addr));
    Schemes();
    LinkParsed("trojan", password, Urls.User(password, None), addr, params, i);
    AllNamed(params);
    assert params + [] == params;
    StreamTlsRoundTrip(TransportParams(inb.transport), addr, []);
    StreamTransport(inb.transport, addr, []);
  }

  /** The flow is carried only by a TLS link over plain TCP. */
  function FlowMeaning(user: UserConfig, inb: InboundOptions, addr: Addr): string {
    if PrintsTls(addr) && Kind(inb.transport) == "tcp" then OrEmpty(user.flow) else ""
  }

  lemma TcpIsOne(t: Transport)
    ensures IsTcp(t) <==> Kind(t) == "tcp"
  {
    Kinds();
  }

  lemma FlowLookup(user: UserConfig, inb: InboundOptions, addr: Addr)
    ensures Lookup(TransportParams(inb.transport) + StreamTls(addr) + VlessFlow(user, inb, addr), Flow)
            == FlowMeaning(user, inb, addr)
  {
    hide Lookup, TransportParams, StreamTls, Opt, IsTcp, PrintsTls;
    TcpIsOne(inb.transport);
    TransportParamKeys(inb.transport);
    FlowOnly(user, inb, addr);
    AroundStream(inb.transport, addr, VlessFlow(user, inb, addr), Flow);
    LookupSkip(TransportParams(inb.transport), VlessFlow(user, inb, addr), Flow);
    LookupLast(Flow, if PrintsTls(addr) && IsTcp(inb.transport) then user.flow else None, Flow);
  }

  lemma FlowOnly(user: UserConfig, inb: InboundOptions, addr: Addr)
    ensures var flow := VlessFlow(user, inb, addr);
            && NoTlsKeys(flow) && (forall p :: p in flow ==> !TransportKey(p.key))
            && (OptOctets(user.flow) ==> SafeParams(flow))
  {
    hide IsTcp, PrintsTls, Octets;
  }

  function VlessMeaning(user: UserConfig, inb: InboundOptions, addr: Addr, i: nat): Outbound {
    Vless(TagMeaning(addr, i), addr.server, addr.port, OrEmpty(user.uuid), FlowMeaning(user, inb, addr),
          StreamMeaning(addr), TransportMeaning(inb.transport))
  }

  lemma VlessRoundTrip(user: UserConfig, inb: InboundOptions, addr: Addr, i: nat)
    requires UserSafe(OrEmpty(user.uuid)) && OptOctets(user.flow) && SafeAddr(addr) && SafeTransport(inb.transport)
    ensures var link := VlessUri(user, inb, addr);
            && link.Some?
            && LP.GetOutbound(link.value, i) == Some(VlessMeaning(user, inb, addr, i))
  {
    hide ShareLink, ParseUrl, ParseQuery, Named, Lookup, Get, LP.GetTls, StreamMeaning, SafeAddr, Octets, UserSafe,
         StreamTls,
         LP.Tag, UserName, Password, LP.Server, LP.Port, TagMeaning, Reads, LP.GetTransport, TransportMeaning,
         TransportParams, SafeTransport, VlessFlow, FlowMeaning, OptOctets;
    var uuid := OrEmpty(user.uuid);
    var flow := VlessFlow(user, inb, addr);
    var params := TransportParams(inb.transport) + StreamTls(addr) + flow;
    SafeReads(uuid);
    AddrTlsSafe(addr);
    TransportParamsSafe(inb.transport);
    TransportParamKeys(inb.transport);
    FlowOnly(user, inb, addr);
    SafeAppend(TransportParams(inb.transport), StreamTls(addr));
    SafeAppend(TransportParams(inb.transport) + StreamTls(addr), flow);
    Schemes();
    LinkParsed("vless", uuid, Urls.User(uuid, None), addr, params, i);
    AllNamed(params);
    StreamTlsRoundTrip(TransportParams(inb.transport), addr, flow);
    StreamTransport(inb.transport, addr, flow);
    FlowLookup(user, inb, addr);
  }

  // ---------- whole lists ----------

  ghost predicate SafeAddrs(addrs: seq<Addr>) {
    forall a :: a in addrs ==> SafeAddr(a)
  }

  /** One link per address, and the k-th parses to the outbound of the k-th address, numbered. */
  ghost predicate Parses(r: Option<seq<string>>, addrs: seq<Addr>, meaning: (Addr, nat) -> Outbound) {
    && r.Some? && |r.value| == |addrs|
    && forall k :: 0 <= k < |addrs| ==> LP.GetOutbound(r.value[k], k + 1) == Some(meaning(addrs[k], k + 1))
  }

  lemma PrintedParses(r: Option<seq<string>>, addrs: seq<Addr>, uri: Addr -> Option<string>,
                      meaning: (Addr, nat) -> Outbound)
    requires r.Some? && |r.value| == |addrs| && forall k :: 0 <= k < |addrs| ==> uri(addrs[k]) == Some(r.value[k])
    requires forall a, i: nat :: a in addrs ==> uri(a).Some? && LP.GetOutbound(uri(a).value, i) == Some(meaning(a, i))
    ensures Parses(r, addrs, meaning)
  {
    hide LP.GetOutbound;
    forall k | 0 <= k < |addrs| ensures uri(addrs[k]).Some? {
      assert addrs[k] in addrs;
      var _ := meaning(addrs[k], k + 1);
    }
  }

  lemma GeneratedLinksParse(user: UserConfig, inb: InboundOptions, out: OutJson, addrs: seq<Addr>,
                            r: Option<seq<string>>)
    requires Prints(r, addrs, (a: Addr) => Hy2Uri(user, inb, out, a))
    requires UserSafe(OrEmpty(user.password)) && SafeAddrs(addrs) && SafeHy2(inb, out)
    ensures Parses(r, addrs, (a: Addr, i: nat) => Hy2Meaning(user, inb, out, a, i))
  {
    hide Hy2Uri, LP.GetOutbound, SafeAddr, SafeHy2, UserSafe, Hy2Meaning;
    forall a, i: nat | a in addrs
      ensures Hy2Uri(user, inb, out, a).Some?
              && LP.GetOutbound(Hy2Uri(user, inb, out, a).value, i) == Some(Hy2Meaning(user, inb, out, a, i))
    {
      Hy2RoundTrip(user, inb, out, a, i);
    }
    forall a | a in addrs ensures Hy2Uri(user, inb, out, a).Some? {
      Hy2RoundTrip(user, inb, out, a, 0);
    }
    PrintedParses(r, addrs, (a: Addr) => Hy2Uri(user, inb, out, a),
                  (a: Addr, i: nat) => Hy2Meaning(user, inb, out, a, i));
  }

  lemma AnyTlsLinksParse(user: UserConfig, addrs: seq<Addr>, r: Option<seq<string>>)
    requires Prints(r, addrs, (a: Addr) => AnyTlsUri(user, a))
    requires UserSafe(OrEmpty(user.password)) && SafeAddrs(addrs)
    ensures Parses(r, addrs, (a: Addr, i: nat) => AnyTlsMeaning(user, a, i))
  {
    hide AnyTlsUri, LP.GetOutbound, SafeAddr, UserSafe, AnyTlsMeaning;
    forall a, i: nat | a in addrs
      ensures AnyTlsUri(user, a).Some? && LP.GetOutbound(AnyTlsUri(user, a).value, i) == Some(AnyTlsMeaning(user, a, i))
    {
      AnyTlsRoundTrip(user, a, i);
    }
    forall a | a in addrs ensures AnyTlsUri(user, a).Some? {
      AnyTlsRoundTrip(user, a, 0);
    }
    PrintedParses(r, addrs, (a: Addr) => AnyTlsUri(user, a), (a: Addr, i: nat) => AnyTlsMeaning(user, a, i));
  }

  lemma TuicLinksParse(user: UserConfig, inb: InboundOptions, addrs: seq<Addr>, r: Option<seq<string>>)
    requires Prints(r, addrs, (a: Addr) => TuicUri(user, inb, a))
    requires UserSafe(OrEmpty(user.uuid)) && PasswordSafe(OrEmpty(user.password)) && SafeAddrs(addrs) && SafeTuic(inb)
    ensures Parses(r, addrs, (a: Addr, i: nat) => TuicMeaning(user, inb, a, i))
  {
    hide TuicUri, LP.GetOutbound, SafeAddr, UserSafe, PasswordSafe, SafeTuic, TuicMeaning;
    forall a, i: nat | a in addrs
      ensures TuicUri(user, inb, a).Some?
              && LP.GetOutbound(TuicUri(user, inb, a).value, i) == Some(TuicMeaning(user, inb, a, i))
    {
      TuicRoundTrip(user, inb, a, i);
    }
    forall a | a in addrs ensures TuicUri(user, inb, a).Some? {
      TuicRoundTrip(user, inb, a, 0);
    }
    PrintedParses(r, addrs, (a: Addr) => TuicUri(user, inb, a), (a: Addr, i: nat) => TuicMeaning(user, inb, a, i));
  }

  lemma VlessLinksParse(user: UserConfig, inb: InboundOptions, addrs: seq<Addr>, r: Option<seq<string>>)
    requires Prints(r, addrs, (a: Addr) => VlessUri(user, inb, a))
    requires UserSafe(OrEmpty(user.uuid)) && OptOctets(user.flow) && SafeAddrs(addrs) && SafeTransport(inb.transport)
    ensures Parses(r, addrs, (a: Addr, i: nat) => VlessMeaning(user, inb, a, i))
  {
    hide VlessUri, LP.GetOutbound, SafeAddr, UserSafe, SafeTransport, VlessMeaning, OptOctets;
    forall a, i: nat | a in addrs
      ensures VlessUri(user, inb, a).Some?
              && LP.GetOutbound(VlessUri(user, inb, a).value, i) == Some(VlessMeaning(user, inb, a, i))
    {
      VlessRoundTrip(user, inb, a, i);
    }
    forall a | a in addrs ensures VlessUri(user, inb, a).Some? {
      VlessRoundTrip(user, inb, a, 0);
    }
    PrintedParses(r, addrs, (a: Addr) => VlessUri(user, inb, a), (a: Addr, i: nat) => VlessMeaning(user, inb, a, i));
  }

  lemma TrojanLinksParse(user: UserConfig, inb: InboundOptions, addrs: seq<Addr>, r: Option<seq<string>>)
    requires Prints(r, addrs, (a: Addr) => TrojanUri(user, inb, a))
    requires UserSafe(OrEmpty(user.password)) && SafeAddrs(addrs) && SafeTransport(inb.transport)
    ensures Parses(r, addrs, (a: Addr, i: nat) => TrojanMeaning(user, inb, a, i))
  {
    hide TrojanUri, LP.GetOutbound, SafeAddr, UserSafe, SafeTransport, TrojanMeaning;
    forall a, i: nat | a in addrs
      ensures TrojanUri(user, inb, a).Some?
              && LP.GetOutbound(TrojanUri(user, inb, a).value, i) == Some(TrojanMeaning(user, inb, a, i))
    {
      TrojanRoundTrip(user, inb, a, i);
    }
    forall a | a in addrs ensures TrojanUri(user, inb, a).Some? {
      TrojanRoundTrip(user, inb, a, 0);
    }
    PrintedParses(r, addrs, (a: Addr) => TrojanUri(user, inb, a), (a: Addr, i: nat) => TrojanMeaning(user, inb, a, i));
  }
}
