/** The parsers of share links (util/linkToJson.go). */
module LinksParsed {
  import opened Model
  import opened Text
  import opened Urls
  import opened Queries
  import opened ShareUrls
  import opened Links

  function NonEmpty(s: string): Option<string> {
    if s == "" then None else Some(s)
  }

  function Items(s: string): Option<seq<string>> {
    if s == "" then None else Some(Split(s, ','))
  }

  predicate Truthy(s: string) {
    s == "1" || s == "true"
  }

  function GetTls(security: string, q: seq<Pair>): OutTls {
    OutTls(
      enabled := security == "tls" || security == "reality",
      reality := if security == "reality" then Some(OutReality(Get(q, Pbk), Get(q, Sid))) else None,
      serverName := NonEmpty(Get(q, Sni)),
      alpn := Items(Get(q, Alpn)),
      insecure := Truthy(Get(q, Insecure)) || Truthy(Get(q, AllowInsecure)),
      utls := if Get(q, Fp) == "" then None else Some(OutUtls(true, Get(q, Fp))),
      ech := NonEmpty(Get(q, Ech)),
      disableSni := Truthy(Get(q, DisableSni)))
  }

  const NO_TRANSPORT := OutTransport("", None, None, None, None, None)

  function HttpTransport(q: seq<Pair>): OutTransport {
    OutTransport("http", Items(Get(q, Host_)), None, Some(Get(q, Path_)), None, None)
  }

  function GetTransport(tpType: string, q: seq<Pair>): OutTransport {
    var kind := ToLower(tpType);
    if kind == "tcp" || kind == "" then
      if Get(q, HeaderType) == "http" then HttpTransport(q) else NO_TRANSPORT
    else if kind == "http" || kind == "h2" then HttpTransport(q)
    else if kind == "ws" then OutTransport("ws", None, None, Some(Get(q, Path_)), NonEmpty(Get(q, Host_)), None)
    else if kind == "quic" then OutTransport("quic", None, None, None, None, None)
    else if kind == "grpc" then OutTransport("grpc", None, None, None, None, Some(Get(q, ServiceName)))
    else if kind == "httpupgrade"
    then OutTransport("httpupgrade", None, Some(Get(q, Host_)), Some(Get(q, Path_)), None, None)
    else NO_TRANSPORT
  }

  /** A list of links numbers its tags. */
  function Tag(u: Url, i: nat): string {
    if i > 0 then Itoa(i) + "." + u.fragment else u.fragment
  }

  function Server(u: Url): string {
    SplitHostPort(u.host).0
  }

  function Port(u: Url, default: int): int {
    var port := SplitHostPort(u.host).1;
    if port == "" then default else Atoi(port)
  }

  function StreamPort(security: string): int {
    if security == "tls" || security == "reality" then 443 else 80
  }

  function OrTls(security: string): string {
    if security == "" then "tls" else security
  }

  function Positive(n: int): Option<int> {
    if n > 0 then Some(n) else None
  }

  function ParseVless(u: Url, i: nat): Outbound {
    var q := ParseQuery(u.rawQuery);
    var security := Get(q, Security);
    Vless(Tag(u, i), Server(u), Port(u, StreamPort(security)), UserName(u), Get(q, Flow),
          GetTls(security, q), GetTransport(Get(q, Type), q))
  }

  function ParseTrojan(u: Url, i: nat): Outbound {
    var q := ParseQuery(u.rawQuery);
    var security := Get(q, Security);
    Trojan(Tag(u, i), Server(u), Port(u, StreamPort(security)), UserName(u),
           GetTls(security, q), GetTransport(Get(q, Type), q))
  }

  function ParseHy2(u: Url, i: nat): Outbound {
    var q := ParseQuery(u.rawQuery);
    Hysteria2(Tag(u, i), Server(u), Port(u, 443), UserName(u), GetTls(OrTls(Get(q, Security)), q),
              Positive(Atoi(Get(q, DownMbps))), Positive(Atoi(Get(q, UpMbps))),
              if Get(q, Obfs) == "salamander" then Some(Get(q, ObfsPassword)) else None,
              Items(ReplaceChar(Get(q, MPort), '-', ':')),
              Truthy(Get(q, FastOpen)))
  }

  function ParseAnyTls(u: Url, i: nat): Outbound {
    var q := ParseQuery(u.rawQuery);
    AnyTls(Tag(u, i), Server(u), Port(u, 443), UserName(u), GetTls(OrTls(Get(q, Security)), q))
  }

  function ParseTuic(u: Url, i: nat): Outbound {
    var q := ParseQuery(u.rawQuery);
    Tuic(Tag(u, i), Server(u), Port(u, 443), UserName(u), Password(u),
         Get(q, CongestionControl), Get(q, UdpRelayMode), GetTls(OrTls(Get(q, Security)), q))
  }

  /** The schemes treated here; `None` also for the unsupported ones. */
  function GetOutbound(uri: string, i: nat): Option<Outbound> {
    match ParseUrl(uri)
    case None => None
    case Some(u) =>
      if u.scheme == "vless" then Some(ParseVless(u, i))
      else if u.scheme == "trojan" then Some(ParseTrojan(u, i))
      else if u.scheme == "hy2" || u.scheme == "hysteria2" then Some(ParseHy2(u, i))
      else if u.scheme == "anytls" then Some(ParseAnyTls(u, i))
      else if u.scheme == "tuic" then Some(ParseTuic(u, i))
      else None
  }
}
