/** Shadowsocks links: the credentials are Base64, the tag is printed as it is
(util/genLink.go:150-177, util/linkToJson.go:353-411). */
module Shadowsocks {
  import opened Model
  import opened Text
  import opened PercentEncoding
  import opened Urls
  import opened Queries
  import opened ShareUrls
  import opened Base64
  import opened Links
  import LP = LinksParsed
  import LR = LinksRoundTrip
  import LT = LinkText

  const CIPHER16 := "2022-blake3-aes-128-gcm"

  /** The 2022 ciphers put the inbound's own key in front of the user's. */
  function UserPass(cipher: string, inboundPassword: string, password16: string, password: string): seq<string> {
    (if "2022" <= cipher then [inboundPassword] else [])
    + [if cipher == CIPHER16 then password16 else password]
  }

  function Credentials(cipher: string, userPass: seq<string>): string {
    cipher + ":" + Join(userPass, ':')
  }

  /** The credentials by cipher: only the 2022 ciphers carry the inbound's key, in front, and one of them
      takes the client's short key. */
  lemma CredentialsByCipher(cipher: string, inboundPassword: string, password16: string, password: string)
    ensures Credentials(cipher, UserPass(cipher, inboundPassword, password16, password)) ==
            if cipher == "2022-blake3-aes-128-gcm" then cipher + ":" + inboundPassword + ":" + password16
            else if |cipher| >= 4 && cipher[..4] == "2022" then cipher + ":" + inboundPassword + ":" + password
            else cipher + ":" + password
  {
    var key := if cipher == "2022-blake3-aes-128-gcm" then password16 else password;
    assert cipher == "2022-blake3-aes-128-gcm" ==> cipher[..4] == "2022";
    assert [inboundPassword, key][1..] == [key] && [key][1..] == [];
    assert Join([key], ':') == key && Join([inboundPassword, key], ':') == inboundPassword + ":" + key;
  }

  function SsUri(credentials: string, addr: Addr): string
    requires Octets(credentials)
  {
    "ss://" + Encode(credentials) + "@" + addr.server + ":" + Itoa(addr.port) + "#" + addr.remark
  }

  method ShadowsocksLink(cipher: string, inboundPassword: string, password16: string, password: string,
                         addrs: seq<Addr>)
    returns (links: seq<string>)
    requires Octets(cipher) && Octets(inboundPassword) && Octets(password16) && Octets(password)
    ensures Octets(Credentials(cipher, UserPass(cipher, inboundPassword, password16, password)))
    ensures |links| == |addrs|
    ensures forall k :: 0 <= k < |addrs| ==>
              links[k] == SsUri(Credentials(cipher, UserPass(cipher, inboundPassword, password16, password)), addrs[k])
  {
    var userPass: seq<string> := [];
    if "2022" <= cipher {
      userPass := userPass + [inboundPassword];
    }
    var pass := password;
    if cipher == "2022-blake3-aes-128-gcm" {
      pass := password16;
    }
    userPass := userPass + [pass];
    JoinChars(userPass, ':');
    var uriBase := "ss://" + Encode(cipher + ":" + Join(userPass, ':'));
    links := [];
    for i := 0 to |addrs|
      invariant |links| == i
      invariant forall k :: 0 <= k < i ==> links[k] == SsUri(Credentials(cipher, userPass), addrs[k])
    {
      links := links + [uriBase + "@" + addrs[i].server + ":" + Itoa(addrs[i].port) + "#" + addrs[i].remark];
    }
  }

  datatype SsOutbound = SsOutbound(
    tag: string, server: string, serverPort: int, cipher: string, password: string,
    plugin: Option<string>, pluginOpts: Option<string>)

  /** Method and password, from the user part or from its Base64 text; no colon is an error. */
  function SsUser(u: Url): Option<(string, string)> {
    if u.user.Some? && u.user.value.password.Some? then Some((u.user.value.name, u.user.value.password.value))
    else
      var parts := Split(StrOrBase64Encoded(UserName(u)), ':');
      if |parts| > 1 then Some((parts[0], Join(parts[1..], ':'))) else None
  }

  function V2rayOptions(q: seq<Pair>): seq<string> {
    (if Get(q, Security) == "tls" then ["tls"] else [])
    + (if Get(q, Type) == "quic" then ["mode=quic"] else [])
    + (if Get(q, Host_) != "" then ["host=" + Get(q, Host_)] else [])
  }

  function SsPlugin(q: seq<Pair>): (Option<string>, Option<string>) {
    if Get(q, Plugin) != "" then
      var parts := Split(Get(q, Plugin), ';');
      (Some(parts[0]), Some(Join(parts[1..], ';')))
    else if Get(q, Type) != "" then (Some("v2ray-plugin"), Some(Join(V2rayOptions(q), ';')))
    else (None, None)
  }

  /** The plugin by the literal names it is read from: a plugin of the link's own, or the v2ray plugin when
      the link has a transport type. */
  lemma PluginByName(q: seq<Pair>)
    ensures var plugin, kind, host := LT.Value(q, "plugin"), LT.Value(q, "type"), LT.Value(q, "host");
            var options := (if LT.Value(q, "security") == "tls" then ["tls"] else [])
                           + (if kind == "quic" then ["mode=quic"] else [])
                           + (if host != "" then ["host=" + host] else []);
            SsPlugin(q) == if plugin != "" then (Some(Split(plugin, ';')[0]), Some(Join(Split(plugin, ';')[1..], ';')))
                           else if kind != "" then (Some("v2ray-plugin"), Some(Join(options, ';')))
                           else (None, None)
  {
    hide Get, LT.Value, Split, Join;
    LT.GetByName(q, Plugin);
    LT.GetByName(q, Type);
    LT.GetByName(q, Host_);
    LT.GetByName(q, Security);
  }

  function ParseSs(u: Url, i: nat): Option<SsOutbound> {
    var q := ParseQuery(u.rawQuery);
    match SsUser(u)
    case None => None
    case Some((cipher, password)) =>
      var (plugin, opts) := SsPlugin(q);
      Some(SsOutbound(LP.Tag(u, i), LP.Server(u), LP.Port(u, 443), cipher, password, plugin, opts))
  }

  function GetSs(uri: string, i: nat): Option<SsOutbound> {
    match ParseUrl(uri)
    case None => None
    case Some(u) => if u.scheme == "ss" || u.scheme == "shadowsocks" then ParseSs(u, i) else None
  }

  // ---------- round trip ----------

  function SsMeaning(cipher: string, password: string, addr: Addr, i: nat): SsOutbound {
    SsOutbound(LR.TagMeaning(addr, i), addr.server, addr.port, cipher, password, None, None)
  }

  lemma SsScheme()
    ensures PlainScheme("ss")
  {
  }

  lemma SymbolPlain(c: char)
    requires IsSymbol(c) || c == '='
    ensures c != '?' && c != '#' && c != '@' && c != ':' && c != '%' && !IsControl(c) && UserinfoChar(c) == (c != '/')
  {
  }

  lemma EncodedPlain(s: string)
    requires Octets(s)
    ensures var e := Encode(s); '?' !in e && '#' !in e && '@' !in e && ':' !in e && '%' !in e && !HasControl(e)
    ensures '/' !in Encode(s) ==> ValidUserinfo(Encode(s))
  {
    hide IsSymbol, IsControl, UserinfoChar, Encode;
    EncodedSymbols(s);
    forall c | c in Encode(s)
      ensures c != '?' && c != '#' && c != '@' && c != ':' && c != '%' && !IsControl(c) && UserinfoChar(c) == (c != '/')
    {
      SymbolPlain(c);
    }
  }

  /** The link, read up to its fragment. */
  lemma SsPieces(credentials: string, addr: Addr)
    requires Octets(credentials) && PlainHost(addr.server)
    ensures var main := Encode(credentials) + "@" + (addr.server + ":" + Itoa(addr.port));
            && ParseUrl(SsUri(credentials, addr)) == WithFragment(ParseHier("ss", main), addr.remark)
            && '?' !in main
  {
    hide Encode, ParseHier, ParseUrl, WithFragment, HasControl, PlainHost, Itoa, PlainScheme, ParseHost, SplitHostPort,
         ValidUserinfo, PercentEncoding.Escape, Octets;
    var hp := addr.server + ":" + Itoa(addr.port);
    var e := Encode(credentials);
    var main := e + "@" + hp;
    PlainHostPort(addr.server, addr.port);
    EncodedPlain(credentials);
    NoControlIn(e, hp);
    SsScheme();
    assert forall c :: c in main <==> c in e || c == '@' || c in hp;
    assert SsUri(credentials, addr) == "ss" + "://" + main + Part('#', addr.remark, true);
    ParseUrlPieces("ss", main, addr.remark, true);
  }

  /** A slash ends the authority before the "@": the user is lost. */
  lemma SlashLosesUser(e: string, hp: string)
    requires '@' !in e && '/' in e && '?' !in e + "@" + hp
    requires ParseHier("ss", e + "@" + hp).Some?
    ensures ParseHier("ss", e + "@" + hp).value.user.None?
  {
    hide ParseHost, ParseUserinfo, Unescape;
    var main := e + "@" + hp;
    CutNone(main, '?');
    HierUser("ss", main);
    assert main == e + ("@" + hp);
    CutAppend(e, "@" + hp, '/');
    CutPieces(e, '/');
    var authority := Cut(main, '/').0;
    assert forall c :: c in authority ==> c in e;
    CutLastNone(authority, '@');
  }

  lemma NoSlashKeepsUser(e: string, host: string, port: nat)
    requires PlainHost(host) && ValidUserinfo(e) && ':' !in e && '%' !in e && '/' !in e && '?' !in e && '@' !in e
    ensures var hp := host + ":" + Itoa(port);
            ParseHier("ss", e + "@" + hp) == Some(Url("ss", Some(Urls.User(e, None)), hp, "", "", false, "", "", ""))
  {
    hide ParseHost, ParseAuthority, Unescape, PlainHost, Itoa, Cut, ValidUserinfo, PercentEncoding.Escape;
    var hp := host + ":" + Itoa(port);
    var main := e + "@" + hp;
    PlainHostPort(host, port);
    NothingPrinted();
    assert main + Part('?', "", false) == main && main + "" == main;
    QueryPieces(main, "", false);
    PathPieces(main, "");
    ParseAuthorityPieces(e, hp);
    CutNone(e, ':');
    UnescapeNothing(e, UserPassword);
  }

  lemma SplitCredentials(cipher: string, password: string)
    requires ':' !in cipher
    ensures var parts := Split(cipher + ":" + password, ':');
            |parts| > 1 && parts[0] == cipher && Join(parts[1..], ':') == password
  {
    CutAt(cipher, ':', password);
    JoinSplit(password, ':');
    var parts := Split(cipher + ":" + password, ':');
    assert parts[1..] == Split(password, ':');
  }

  lemma FragmentExact(remark: string)
    ensures Unescape(remark, Fragment) == Some(remark) <==> '%' !in remark
    ensures Unescape(remark, Fragment).Some? && Unescape(remark, Fragment).value == remark ==> '%' !in remark
  {
    if '%' !in remark {
      UnescapeNothing(remark, Fragment);
    } else if Unescape(remark, Fragment).Some? {
      UnescapeShortens(remark, Fragment);
    }
  }

  lemma EmptyQuery()
    ensures SsPlugin(ParseQuery("")) == (None, None)
  {
  }

  lemma LostUser(u: Url)
    requires u.user.None?
    ensures SsUser(u).None?
  {
    assert StrOrBase64Encoded("") == "";
    assert Split("", ':') == [""];
  }

  lemma TagInjective(a: string, b: string, i: nat)
    ensures (if i > 0 then Itoa(i) + "." + a else a) == (if i > 0 then Itoa(i) + "." + b else b) ==> a == b
  {
    if i > 0 {
      var n := |Itoa(i) + "."|;
      assert (Itoa(i) + "." + a)[n..] == a && (Itoa(i) + "." + b)[n..] == b;
    }
  }

  /** A shadowsocks link parses to its method, its whole password (colons and all) and its tag exactly
      when the Base64 text has no "/" and the tag no "%". */
  lemma SsRoundTripExact(cipher: string, password: string, addr: Addr, i: nat)
    requires ':' !in cipher && Octets(cipher) && Octets(password) && PlainHost(addr.server) && addr.port <= MAX_INT
    ensures GetSs(SsUri(cipher + ":" + password, addr), i) == Some(SsMeaning(cipher, password, addr, i))
            <==> '/' !in Encode(cipher + ":" + password) && '%' !in addr.remark
  {
    hide Encode, ParseUrl, SsUri, ParseHier, ParseQuery, SsPlugin, Unescape, PlainHost, Itoa, Atoi, SplitHostPort,
         Octets, Split,
         StrOrBase64Encoded, Decode, Escape;
    var credentials := cipher + ":" + password;
    ColonOctets(cipher, password);
    var e, hp := Encode(credentials), addr.server + ":" + Itoa(addr.port);
    SsPieces(credentials, addr);
    EncodedPlain(credentials);
    FragmentExact(addr.remark);
    PlainHostPort(addr.server, addr.port);
    EmptyQuery();
    if '/' in e {
      if ParseHier("ss", e + "@" + hp).Some? {
        SlashLosesUser(e, hp);
        if Unescape(addr.remark, Fragment).Some? {
          LostUser(ParseUrl(SsUri(credentials, addr)).value);
        }
      }
    } else {
      NoSlashKeepsUser(e, addr.server, addr.port);
      DecodeEncode(credentials);
      DecodedText(e, credentials);
      SplitCredentials(cipher, password);
      AtoiItoa(addr.port);
      if Unescape(addr.remark, Fragment).Some? {
        TagInjective(Unescape(addr.remark, Fragment).value, addr.remark, i);
      }
    }
  }

  lemma DecodedText(e: string, text: string)
    requires Decode(e) == Some(text)
    ensures StrOrBase64Encoded(e) == text
  {
  }

  lemma ColonOctets(a: string, b: string)
    requires Octets(a) && Octets(b)
    ensures Octets(a + ":" + b)
  {
  }

  /** For ASCII credentials: no third byte of a group may be "?" or DEL. */
  lemma SsAsciiRoundTrip(cipher: string, password: string, addr: Addr, i: nat)
    requires ':' !in cipher && Ascii(cipher + ":" + password) && PlainHost(addr.server) && addr.port <= MAX_INT
    requires '%' !in addr.remark
    ensures GetSs(SsUri(cipher + ":" + password, addr), i) == Some(SsMeaning(cipher, password, addr, i))
            <==> !exists k :: SlashAt(cipher + ":" + password, k)
  {
    hide Encode, GetSs, SsUri, SlashAt;
    assert forall c :: c in cipher || c in password ==> c in cipher + ":" + password;
    SlashExact(cipher + ":" + password);
    SsRoundTripExact(cipher, password, addr, i);
  }
}
