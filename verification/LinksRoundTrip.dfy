/** Parsing a printed link gives back what was printed, up to absent fields reading as empty ones. */
module LinksRoundTrip {
  import opened Model
  import opened Text
  import opened PercentEncoding
  import opened Urls
  import opened Queries
  import opened ShareUrls
  import opened Links
  import LP = LinksParsed

  // ---------- what a link means ----------

  function Present(s: Option<string>): Option<string> {
    if s == Some("") then None else s
  }

  function PresentList(items: Option<seq<string>>): Option<seq<string>> {
    if items == Some([]) then None else items
  }

  /** A printed fingerprint reads as uTLS switched on. */
  function UtlsMeaning(fingerprint: Option<string>): Option<OutUtls> {
    match fingerprint case None => None case Some(f) => Some(OutUtls(true, f))
  }

  /** What a link with these settings says. A link always says that TLS is on, and with Reality it says
      nothing of the insecure and disable_sni switches. */
  function TlsMeaning(tls: Tls): OutTls {
    OutTls(
      enabled := true,
      reality := if RealityOn(tls)
                 then Some(OutReality(OrEmpty(tls.reality.value.publicKey), OrEmpty(tls.reality.value.shortId)))
                 else None,
      serverName := Present(tls.serverName),
      alpn := PresentList(tls.alpn),
      insecure := !RealityOn(tls) && tls.insecure == Some(true),
      utls := UtlsMeaning(Present(Fingerprint(tls))),
      ech := None,
      disableSni := !RealityOn(tls) && tls.disableSni == Some(true))
  }

  // ---------- what the settings themselves say ----------

  predicate UtlsOn(utls: Option<Utls>) {
    utls.Some? && utls.value.enabled
  }

  /** uTLS that is switched off is no uTLS; switched on without a fingerprint it is still uTLS. */
  function UtlsStored(utls: Option<Utls>): Option<OutUtls> {
    if UtlsOn(utls) then Some(OutUtls(true, OrEmpty(utls.value.fingerprint))) else None
  }

  function TlsStored(tls: Tls): OutTls {
    OutTls(
      enabled := tls.enabled,
      reality := TlsMeaning(tls).reality,
      serverName := Present(tls.serverName),
      alpn := PresentList(tls.alpn),
      insecure := tls.insecure == Some(true),
      utls := UtlsStored(tls.utls),
      ech := None,
      disableSni := tls.disableSni == Some(true))
  }

  /** uTLS is switched on exactly when there is a fingerprint. */
  predicate UtlsPlain(utls: Option<Utls>) {
    UtlsOn(utls) <==> utls.Some? && Present(utls.value.fingerprint).Some?
  }

  /** Settings that a link can carry: TLS on, uTLS plain, and no switch that Reality hides. */
  predicate Printable(tls: Tls) {
    && tls.enabled && UtlsPlain(tls.utls)
    && (RealityOn(tls) ==> tls.insecure != Some(true) && tls.disableSni != Some(true))
  }

  lemma TlsMeaningExact(tls: Tls)
    ensures TlsMeaning(tls) == TlsStored(tls) <==> Printable(tls)
  {
  }

  function BareTls(enabled: bool): OutTls {
    OutTls(enabled, None, None, None, false, None, None, false)
  }

  function AddrMeaning(addr: Addr): OutTls {
    match addr.tls case None => BareTls(true) case Some(tls) => TlsMeaning(tls)
  }

  function StreamMeaning(addr: Addr): OutTls {
    if PrintsTls(addr) then TlsMeaning(addr.tls.value) else BareTls(false)
  }

  function TransportMeaning(t: Transport): OutTransport {
    var kind := Kind(t);
    if kind == "http" then OutTransport("http", PresentList(t.hosts), None, Some(OrEmpty(t.path)), None, None)
    else if kind == "ws" then OutTransport("ws", None, None, Some(OrEmpty(t.path)), Present(t.headerHost), None)
    else if kind == "grpc" then OutTransport("grpc", None, None, None, None, Some(OrEmpty(t.serviceName)))
    else if kind == "httpupgrade"
    then OutTransport("httpupgrade", None, Some(OrEmpty(t.host)), Some(OrEmpty(t.path)), None, None)
    else if kind == "quic" then OutTransport("quic", None, None, None, None, None)
    else LP.NO_TRANSPORT
  }

  function TagMeaning(addr: Addr, i: nat): string {
    if i > 0 then Itoa(i) + "." + addr.remark else addr.remark
  }

  /** A rate of zero reads as no rate. */
  function RateMeaning(rate: Option<nat>): Option<int> {
    match rate case None => None case Some(n) => if n > 0 then Some(n) else None
  }

  function ObfsMeaning(obfs: Option<Obfuscation>): Option<string> {
    if obfs.Some? && obfs.value.kind == Some("salamander") then Some(OrEmpty(obfs.value.password)) else None
  }

  function PortsMeaning(ports: Option<seq<string>>): Option<seq<string>> {
    match ports case None => None case Some(ps) => if ps == [] then None else Some(ReplaceEach(ps, '-', ':'))
  }

  // ---------- character classes ----------

  ghost predicate OptOctets(s: Option<string>) {
    s.Some? ==> Octets(s.value)
  }

  /** Items that a comma-separated list keeps apart; the list of one empty item is the empty text. */
  ghost predicate Listable(items: Option<seq<string>>) {
    items.Some? ==> items.value != [""] && forall x :: x in items.value ==> ',' !in x
  }

  ghost predicate RawList(items: Option<seq<string>>) {
    Listable(items) && (items.Some? ==> forall x :: x in items.value ==> forall c :: c in x ==> RawChar(c))
  }

  ghost predicate OctetList(items: Option<seq<string>>) {
    Listable(items) && (items.Some? ==> forall x :: x in items.value ==> Octets(x))
  }

  ghost predicate SafeTls(tls: Tls) {
    && OptOctets(Fingerprint(tls)) && OptOctets(tls.serverName) && RawList(tls.alpn)
    && (tls.reality.Some? ==> OptOctets(tls.reality.value.publicKey) && OptOctets(tls.reality.value.shortId))
  }

  ghost predicate SafeAddr(addr: Addr) {
    && PlainHost(addr.server) && addr.port <= MAX_INT && Octets(addr.remark)
    && (addr.tls.Some? ==> SafeTls(addr.tls.value))
  }

  ghost predicate SafeTransport(t: Transport) {
    && Kind(t) in {"tcp", "http", "ws", "grpc", "httpupgrade", "quic"}
    && OctetList(t.hosts) && OptOctets(t.host) && OptOctets(t.path) && OptOctets(t.headerHost)
    && OptOctets(t.serviceName)
  }

  // ---------- lists ----------

  lemma ItemsJoined(items: Option<seq<string>>)
    requires Listable(items)
    ensures LP.Items(OrEmpty(Joined(items))) == PresentList(items)
  {
    if items.Some? && items.value != [] {
      SplitJoin(items.value, ',');
      assert Join(items.value, ',') != "" by {
        assert |items.value| == 1 ==> items.value == [items.value[0]];
      }
    }
  }

  lemma JoinedRaw(items: Option<seq<string>>)
    requires RawList(items)
    ensures Joined(items).Some? ==> forall c :: c in Joined(items).value ==> RawChar(c)
  {
    if items.Some? {
      JoinChars(items.value, ',');
    }
  }

  lemma JoinedOctets(items: Option<seq<string>>)
    requires OctetList(items)
    ensures OptOctets(Joined(items))
  {
    if items.Some? {
      JoinChars(items.value, ',');
    }
  }

  // ---------- lookups ----------

  predicate TlsKey(k: Key) {
    k.Security? || k.Pbk? || k.Sid? || k.Insecure? || k.AllowInsecure? || k.DisableSni? || k.Fp? || k.Sni?
    || k.Alpn? || k.Ech?
  }

  ghost predicate NoTlsKeys(params: seq<LinkParam>) {
    forall p :: p in params ==> !TlsKey(p.key)
  }

  lemma AllNamed(params: seq<LinkParam>)
    ensures forall k :: Get(Named(params), k) == Lookup(params, k)
  {
    forall k ensures Get(Named(params), k) == Lookup(params, k) {
      GetNamed(params, k);
    }
  }

  lemma {:induction false} LookupSkip(a: seq<LinkParam>, b: seq<LinkParam>, k: Key)
    ensures (forall p :: p in a ==> p.key != k) ==> Lookup(a + b, k) == Lookup(b, k)
    ensures (forall p :: p in b ==> p.key != k) ==> Lookup(a + b, k) == Lookup(a, k)
  {
    if a == [] {
      assert a + b == b;
      LookupAbsent(b, k);
    } else {
      assert a[0] in a && forall p :: p in a[1..] ==> p in a;
      assert (a + b)[1..] == a[1..] + b;
      LookupSkip(a[1..], b, k);
    }
  }

  lemma {:induction false} LookupAbsent(params: seq<LinkParam>, k: Key)
    ensures (forall p :: p in params ==> p.key != k) ==> Lookup(params, k) == ""
  {
    if params != [] {
      assert params[0] in params && forall p :: p in params[1..] ==> p in params;
      LookupAbsent(params[1..], k);
    }
  }

  lemma LookupOpt(key: Key, value: Option<string>, rest: seq<LinkParam>, k: Key)
    ensures Lookup(Opt(key, value) + rest, k) == if key == k && value.Some? then value.value else Lookup(rest, k)
  {
    if value.Some? {
      assert (Opt(key, value) + rest)[1..] == rest;
    } else {
      assert Opt(key, value) + rest == rest;
    }
  }

  lemma LookupLast(key: Key, value: Option<string>, k: Key)
    ensures Lookup(Opt(key, value), k) == if key == k && value.Some? then value.value else ""
  {
  }

  lemma HelloLookup(tls: Tls, k: Key)
    ensures Lookup(HelloParams(tls), k) ==
            match k
            case Fp => OrEmpty(Fingerprint(tls))
            case Sni => OrEmpty(tls.serverName)
            case Alpn => OrEmpty(Joined(tls.alpn))
            case _ => ""
  {
    hide Lookup, Opt, Joined;
    var last := Opt(Alpn, Joined(tls.alpn));
    LookupLast(Alpn, Joined(tls.alpn), k);
    LookupOpt(Sni, tls.serverName, last, k);
    LookupOpt(Fp, Fingerprint(tls), Opt(Sni, tls.serverName) + last, k);
  }

  lemma SecurityLookup(tls: Tls, insecureKey: Key, k: Key)
    requires insecureKey == Insecure || insecureKey == AllowInsecure
    ensures Lookup(SecurityParams(tls, insecureKey), k) ==
            (var reality := RealityOn(tls);
             match k
             case Security => if reality then "reality" else "tls"
             case Pbk => if reality then OrEmpty(tls.reality.value.publicKey) else ""
             case Sid => if reality then OrEmpty(tls.reality.value.shortId) else ""
             case DisableSni => OrEmpty(OneIf(!reality && tls.disableSni == Some(true)))
             case _ => if k == insecureKey then OrEmpty(OneIf(!reality && tls.insecure == Some(true))) else "")
  {
    hide Lookup, Opt, OneIf;
    var reality := RealityOn(tls);
    var security := Some(if reality then "reality" else "tls");
    var pbk := if reality then tls.reality.value.publicKey else None;
    var sid := if reality then tls.reality.value.shortId else None;
    var insecure := OneIf(!reality && tls.insecure == Some(true));
    var disableSni := OneIf(!reality && tls.disableSni == Some(true));
    var r4 := Opt(DisableSni, disableSni);
    var r3 := Opt(insecureKey, insecure) + r4;
    var r2 := Opt(Sid, sid) + r3;
    var r1 := Opt(Pbk, pbk) + r2;
    assert SecurityParams(tls, insecureKey) == Opt(Security, security) + r1;
    LookupLast(DisableSni, disableSni, k);
    LookupOpt(insecureKey, insecure, r4, k);
    LookupOpt(Sid, sid, r3, k);
    LookupOpt(Pbk, pbk, r2, k);
    LookupOpt(Security, security, r1, k);
  }

  lemma TlsParamKeys(tls: Tls, insecureKey: Key)
    requires insecureKey == Insecure || insecureKey == AllowInsecure
    ensures forall p :: p in SecurityParams(tls, insecureKey) ==>
              TlsKey(p.key) && !p.key.Fp? && !p.key.Sni? && !p.key.Alpn? && !p.key.Ech?
    ensures forall p :: p in HelloParams(tls) ==> p.key.Fp? || p.key.Sni? || p.key.Alpn?
  {
    hide Opt, Joined, OneIf;
    var reality := RealityOn(tls);
    var security := Some(if reality then "reality" else "tls");
    var pbk := if reality then tls.reality.value.publicKey else None;
    var sid := if reality then tls.reality.value.shortId else None;
    OptKey(Security, security);
    OptKey(Pbk, pbk);
    OptKey(Sid, sid);
    OptKey(insecureKey, OneIf(!reality && tls.insecure == Some(true)));
    OptKey(DisableSni, OneIf(!reality && tls.disableSni == Some(true)));
    OptKey(Fp, Fingerprint(tls));
    OptKey(Sni, tls.serverName);
    OptKey(Alpn, Joined(tls.alpn));
  }

  lemma OptKey(key: Key, value: Option<string>)
    ensures forall p :: p in Opt(key, value) ==> p.key == key
  {
  }

  /** Other parameters do not disturb the TLS ones, nor the other way round. */
  lemma AmongTls(pre: seq<LinkParam>, tls: Tls, insecureKey: Key, post: seq<LinkParam>, k: Key)
    requires insecureKey == Insecure || insecureKey == AllowInsecure
    requires NoTlsKeys(pre) && NoTlsKeys(post)
    ensures var l := Lookup(pre + TlsParams(tls, insecureKey) + post, k);
            if k.Fp? || k.Sni? || k.Alpn? then l == Lookup(HelloParams(tls), k)
            else if TlsKey(k) then l == Lookup(SecurityParams(tls, insecureKey), k)
            else l == Lookup(pre + post, k)
  {
    hide Lookup, SecurityParams, HelloParams;
    var security, hello := SecurityParams(tls, insecureKey), HelloParams(tls);
    TlsParamKeys(tls, insecureKey);
    LookupSkip(pre + (security + hello), post, k);
    LookupSkip(pre, security + hello, k);
    LookupSkip(security, hello, k);
    if !TlsKey(k) {
      assert pre + (security + hello) + post == pre + ((security + hello) + post);
      LookupPrefix(pre, (security + hello) + post, post, k);
      LookupSkip(security + hello, post, k);
    }
  }

  lemma {:induction false} LookupPrefix(a: seq<LinkParam>, b: seq<LinkParam>, c: seq<LinkParam>, k: Key)
    ensures Lookup(b, k) == Lookup(c, k) ==> Lookup(a + b, k) == Lookup(a + c, k)
  {
    if a == [] {
      assert a + b == b && a + c == c;
    } else {
      assert (a + b)[1..] == a[1..] + b && (a + c)[1..] == a[1..] + c;
      LookupPrefix(a[1..], b, c, k);
    }
  }

  lemma HelloRoundTrip(pre: seq<LinkParam>, tls: Tls, insecureKey: Key, post: seq<LinkParam>)
    requires insecureKey == Insecure || insecureKey == AllowInsecure
    requires NoTlsKeys(pre) && NoTlsKeys(post) && SafeTls(tls)
    ensures var params := pre + TlsParams(tls, insecureKey) + post;
            && LP.NonEmpty(Lookup(params, Fp)) == Present(Fingerprint(tls))
            && LP.NonEmpty(Lookup(params, Sni)) == Present(tls.serverName)
            && LP.Items(Lookup(params, Alpn)) == PresentList(tls.alpn)
  {
    hide Lookup, TlsParams, HelloParams, Joined, LP.Items, NoTlsKeys;
    AmongTls(pre, tls, insecureKey, post, Fp);
    AmongTls(pre, tls, insecureKey, post, Sni);
    AmongTls(pre, tls, insecureKey, post, Alpn);
    HelloLookup(tls, Fp);
    HelloLookup(tls, Sni);
    HelloLookup(tls, Alpn);
    ItemsJoined(tls.alpn);
  }

  lemma SecurityRoundTrip(pre: seq<LinkParam>, tls: Tls, insecureKey: Key, post: seq<LinkParam>)
    requires insecureKey == Insecure || insecureKey == AllowInsecure
    requires NoTlsKeys(pre) && NoTlsKeys(post)
    ensures var params := pre + TlsParams(tls, insecureKey) + post;
            && Lookup(params, Security) == (if RealityOn(tls) then "reality" else "tls")
            && (RealityOn(tls) ==> Lookup(params, Pbk) == OrEmpty(tls.reality.value.publicKey)
                                   && Lookup(params, Sid) == OrEmpty(tls.reality.value.shortId))
            && Lookup(params, Ech) == ""
            && (LP.Truthy(Lookup(params, Insecure)) || LP.Truthy(Lookup(params, AllowInsecure))
                <==> !RealityOn(tls) && tls.insecure == Some(true))
            && (LP.Truthy(Lookup(params, DisableSni)) <==> !RealityOn(tls) && tls.disableSni == Some(true))
  {
    hide Lookup, TlsParams, SecurityParams, NoTlsKeys, LP.Truthy, RealityOn;
    AmongTls(pre, tls, insecureKey, post, Security);
    AmongTls(pre, tls, insecureKey, post, Pbk);
    AmongTls(pre, tls, insecureKey, post, Sid);
    AmongTls(pre, tls, insecureKey, post, Insecure);
    AmongTls(pre, tls, insecureKey, post, AllowInsecure);
    AmongTls(pre, tls, insecureKey, post, DisableSni);
    AmongTls(pre, tls, insecureKey, post, Ech);
    SecurityLookup(tls, insecureKey, Security);
    SecurityLookup(tls, insecureKey, Pbk);
    SecurityLookup(tls, insecureKey, Sid);
    SecurityLookup(tls, insecureKey, Insecure);
    SecurityLookup(tls, insecureKey, AllowInsecure);
    SecurityLookup(tls, insecureKey, DisableSni);
    SecurityLookup(tls, insecureKey, Ech);
    Words();
  }

  lemma TlsRoundTrip(pre: seq<LinkParam>, tls: Tls, insecureKey: Key, post: seq<LinkParam>)
    requires insecureKey == Insecure || insecureKey == AllowInsecure
    requires NoTlsKeys(pre) && NoTlsKeys(post) && SafeTls(tls)
    ensures var params := pre + TlsParams(tls, insecureKey) + post;
            Lookup(params, Security) != "" && LP.GetTls(Lookup(params, Security), Named(params)) == TlsMeaning(tls)
  {
    hide Lookup, TlsParams, LP.Items, Named, NoTlsKeys, SafeTls, LP.Truthy, RealityOn, OrEmpty, Present, PresentList;
    var params := pre + TlsParams(tls, insecureKey) + post;
    AllNamed(params);
    HelloRoundTrip(pre, tls, insecureKey, post);
    SecurityRoundTrip(pre, tls, insecureKey, post);
    Words();
  }

  /** For every TLS settings: the parsed TLS is the printed one if and only if the settings are printable. */
  lemma TlsRoundTripExact(pre: seq<LinkParam>, tls: Tls, insecureKey: Key, post: seq<LinkParam>)
    requires insecureKey == Insecure || insecureKey == AllowInsecure
    requires NoTlsKeys(pre) && NoTlsKeys(post) && SafeTls(tls)
    ensures var params := pre + TlsParams(tls, insecureKey) + post;
            LP.GetTls(Lookup(params, Security), Named(params)) == TlsStored(tls) <==> Printable(tls)
  {
    hide LP.GetTls, Lookup, Named, TlsMeaning, TlsStored, Printable, SafeTls, TlsParams;
    TlsRoundTrip(pre, tls, insecureKey, post);
    TlsMeaningExact(tls);
  }

  lemma Words()
    ensures "reality" != "tls" && "reality" != "" && "tls" != "" && "1" != "" && LP.Truthy("1") && !LP.Truthy("")
            && !LP.Truthy("0")
  {
  }

  lemma NoTlsRoundTrip(params: seq<LinkParam>, security: string)
    requires NoTlsKeys(params) && (security == "" || security == "tls")
    ensures Lookup(params, Security) == ""
    ensures LP.GetTls(security, Named(params)) == BareTls(security == "tls")
  {
    hide Lookup, Named;
    AllNamed(params);
    forall k | TlsKey(k) ensures Lookup(params, k) == "" {
      LookupAbsent(params, k);
    }
    Words();
  }

  /** Without an address TLS, the parser assumes plain TLS. */
  lemma AddrTlsRoundTrip(pre: seq<LinkParam>, addr: Addr, post: seq<LinkParam>)
    requires NoTlsKeys(pre) && NoTlsKeys(post) && SafeAddr(addr)
    ensures var params := pre + AddrTls(addr, Insecure) + post;
            LP.GetTls(LP.OrTls(Lookup(params, Security)), Named(params)) == AddrMeaning(addr)
  {
    hide LP.GetTls, Lookup, Named, TlsParams, TlsMeaning;
    match addr.tls
    case Some(tls) => TlsRoundTrip(pre, tls, Insecure, post);
    case None =>
      assert pre + AddrTls(addr, Insecure) + post == pre + post;
      NoTlsRoundTrip(pre + post, "tls");
  }

  lemma StreamTlsRoundTrip(pre: seq<LinkParam>, addr: Addr, post: seq<LinkParam>)
    requires NoTlsKeys(pre) && NoTlsKeys(post) && SafeAddr(addr)
    ensures var params := pre + StreamTls(addr) + post;
            LP.GetTls(Lookup(params, Security), Named(params)) == StreamMeaning(addr)
  {
    hide LP.GetTls, Lookup, Named, TlsParams, TlsMeaning;
    if PrintsTls(addr) {
      TlsRoundTrip(pre, addr.tls.value, AllowInsecure, post);
    } else {
      assert pre + StreamTls(addr) + post == pre + post;
      NoTlsRoundTrip(pre + post, "");
    }
  }

  /** Keys outside TLS are looked up in what surrounds it. */
  lemma AroundTls(pre: seq<LinkParam>, tls: Option<Tls>, insecureKey: Key, post: seq<LinkParam>, k: Key)
    requires insecureKey == Insecure || insecureKey == AllowInsecure
    requires NoTlsKeys(pre) && NoTlsKeys(post) && !TlsKey(k)
    ensures Lookup(pre + (if tls.Some? then TlsParams(tls.value, insecureKey) else []) + post, k)
            == Lookup(pre + post, k)
  {
    hide Lookup, TlsParams;
    match tls
    case Some(t) => AmongTls(pre, t, insecureKey, post, k);
    case None => assert pre + [] + post == pre + post;
  }

  lemma OptSafe(key: Key, value: Option<string>)
    requires value.Some? ==> SafeParam(LinkParam(key, value.value))
    ensures SafeParams(Opt(key, value))
  {
  }

  lemma SafeAppend(a: seq<LinkParam>, b: seq<LinkParam>)
    requires SafeParams(a) && SafeParams(b)
    ensures SafeParams(a + b)
  {
    hide SafeParam;
  }

  lemma WordOctets()
    ensures Octets("1") && Octets("0") && Octets("tls") && Octets("reality") && Octets("")
  {
  }

  lemma SecurityParamsSafe(tls: Tls, insecureKey: Key)
    requires insecureKey == Insecure || insecureKey == AllowInsecure
    requires SafeTls(tls)
    ensures SafeParams(SecurityParams(tls, insecureKey))
  {
    hide Octets, SafeParams, Opt;
    var reality := RealityOn(tls);
    var security := Some(if reality then "reality" else "tls");
    var pbk := if reality then tls.reality.value.publicKey else None;
    var sid := if reality then tls.reality.value.shortId else None;
    var insecure := OneIf(!reality && tls.insecure == Some(true));
    var disableSni := OneIf(!reality && tls.disableSni == Some(true));
    WordOctets();
    OptSafe(Security, security);
    OptSafe(Pbk, pbk);
    OptSafe(Sid, sid);
    OptSafe(insecureKey, insecure);
    OptSafe(DisableSni, disableSni);
    var r4 := Opt(DisableSni, disableSni);
    var r3 := Opt(insecureKey, insecure) + r4;
    var r2 := Opt(Sid, sid) + r3;
    var r1 := Opt(Pbk, pbk) + r2;
    SafeAppend(Opt(insecureKey, insecure), r4);
    SafeAppend(Opt(Sid, sid), r3);
    SafeAppend(Opt(Pbk, pbk), r2);
    SafeAppend(Opt(Security, security), r1);
  }

  lemma TlsParamsSafe(tls: Tls, insecureKey: Key)
    requires insecureKey == Insecure || insecureKey == AllowInsecure
    requires SafeTls(tls)
    ensures SafeParams(TlsParams(tls, insecureKey))
  {
    hide Octets, SafeParams, Opt, SecurityParams, RawList;
    SecurityParamsSafe(tls, insecureKey);
    JoinedRaw(tls.alpn);
    OptSafe(Fp, Fingerprint(tls));
    OptSafe(Sni, tls.serverName);
    OptSafe(Alpn, Joined(tls.alpn));
    SafeAppend(Opt(Sni, tls.serverName), Opt(Alpn, Joined(tls.alpn)));
    SafeAppend(Opt(Fp, Fingerprint(tls)), Opt(Sni, tls.serverName) + Opt(Alpn, Joined(tls.alpn)));
    SafeAppend(SecurityParams(tls, insecureKey), HelloParams(tls));
  }

  // ---------- one link ----------

  /** What every protocol's parser reads outside the query. */
  lemma LinkParsed(scheme: string, userinfo: string, user: Urls.User, addr: Addr, params: seq<LinkParam>, i: nat)
    requires PlainScheme(scheme) && Reads(userinfo, user) && SafeAddr(addr) && SafeParams(params)
    ensures var link := ShareLink(scheme, userinfo, params, addr);
            && link.Some? && ParseUrl(link.value).Some?
            && var u := ParseUrl(link.value).value;
            && u.scheme == scheme && ParseQuery(u.rawQuery) == Named(params)
            && UserName(u) == user.name && Password(u) == OrEmpty(user.password)
            && LP.Server(u) == addr.server && LP.Tag(u, i) == TagMeaning(addr, i)
            && forall default :: LP.Port(u, default) == addr.port
  {
    hide AddParams, BareUri, ParseUrl, ParseQuery, SplitHostPort, Named, Reads, Atoi, Itoa, SafeParams, PlainHost,
         Octets;
    LinkRoundTrip(scheme, userinfo, user, addr.server, addr.port, params, addr.remark);
    AtoiItoa(addr.port);
  }
}
