/** URLs with an authority, scheme://user@host/path?query#fragment, as Go's net/url parses and prints
them (RFC 3986 section 3). */
module Urls {
  import opened Model
  import opened Text
  import opened PercentEncoding

  datatype User = User(name: string, password: Option<string>)

  datatype Url = Url(
    scheme: string, user: Option<User>, host: string,
    path: string, rawPath: string, forceQuery: bool, rawQuery: string,
    fragment: string, rawFragment: string)

  // ---------- parsing ----------

  predicate IsControl(c: char) {
    c < ' ' || c as int == 127
  }

  predicate HasControl(s: string) {
    exists c :: c in s && IsControl(c)
  }

  predicate SchemeChar(c: char) {
    IsAlnum(c) || c in "+-."
  }

  predicate IsLetter(c: char) {
    'a' <= c <= 'z' || 'A' <= c <= 'Z'
  }

  function Lower(c: char): char {
    if 'A' <= c <= 'Z' then 'a' + (c - 'A') else c
  }

  function ToLower(s: string): string {
    if s == [] then [] else [Lower(s[0])] + ToLower(s[1..])
  }

  /** What stands before the first colon, in lower case; None unless it can be a scheme. */
  function GetScheme(s: string): Option<(string, string)> {
    var (scheme, rest, found) := Cut(s, ':');
    if !found || scheme == [] || !IsLetter(scheme[0]) || exists c :: c in scheme && !SchemeChar(c) then None
    else Some((ToLower(scheme), rest))
  }

  predicate UserinfoChar(c: char) {
    IsAlnum(c) || c in "-._:~!$&'()*+,;=%@"
  }

  predicate ValidUserinfo(s: string) {
    forall c :: c in s ==> UserinfoChar(c)
  }

  function ParseUserinfo(s: string): Option<User> {
    if !ValidUserinfo(s) then None
    else
      var (name, password, found) := Cut(s, ':');
      match Unescape(name, UserPassword)
      case None => None
      case Some(n) =>
        if !found then Some(User(n, None))
        else
          match Unescape(password, UserPassword)
          case None => None
          case Some(p) => Some(User(n, Some(p)))
  }

  predicate ValidOptionalPort(s: string) {
    s == [] || (s[0] == ':' && forall c :: c in s[1..] ==> IsDigit(c))
  }

  predicate ValidPortPart(host: string) {
    if host != [] && host[0] == '[' then
      var (_, colonPort, found) := CutLast(host, ']');
      found && ValidOptionalPort(colonPort)
    else
      var (_, port, found) := CutLast(host, ':');
      found ==> ValidOptionalPort([':'] + port)
  }

  function ParseHost(host: string): Option<string> {
    if !ValidPortPart(host) then None else Unescape(host, Host)
  }

  function ParseAuthority(authority: string): Option<(Option<User>, string)> {
    var (userinfo, hostPart, found) := CutLast(authority, '@');
    match ParseHost(hostPart)
    case None => None
    case Some(host) =>
      if !found then Some((None, host))
      else
        match ParseUserinfo(userinfo)
        case None => None
        case Some(user) => Some((Some(user), host))
  }

  /** The raw form is kept only when it is not the default encoding. */
  function RawForm(raw: string, decoded: string, mode: Mode): string {
    if raw == Escape(decoded, mode) then "" else raw
  }

  function CutQuery(s: string): (string, bool, string) {
    var (rest, query, found) := Cut(s, '?');
    (rest, found && query == [], query)
  }

  function CutPath(s: string): (string, string) {
    var (authority, path, found) := Cut(s, '/');
    (authority, if found then ['/'] + path else [])
  }

  /** What follows "scheme://", up to the fragment. */
  function ParseHier(scheme: string, s: string): Option<Url> {
    var (rest, forceQuery, query) := CutQuery(s);
    var (authority, path) := CutPath(rest);
    match ParseAuthority(authority)
    case None => None
    case Some((user, host)) =>
      match Unescape(path, Path)
      case None => None
      case Some(decoded) =>
        Some(Url(scheme, user, host, decoded, RawForm(path, decoded, Path), forceQuery, query, "", ""))
  }

  function ParseMain(s: string): Option<Url> {
    if HasControl(s) then None
    else
      match GetScheme(s)
      case None => None
      case Some((scheme, rest)) =>
        if |rest| < 2 || rest[..2] != "//" then None else ParseHier(scheme, rest[2..])
  }

  function WithFragment(u: Option<Url>, fragment: string): Option<Url> {
    match u
    case None => None
    case Some(url) =>
      match Unescape(fragment, Fragment)
      case None => None
      case Some(f) => Some(url.(fragment := f, rawFragment := RawForm(fragment, f, Fragment)))
  }

  function ParseUrl(s: string): Option<Url> {
    var (main, fragment, _) := Cut(s, '#');
    WithFragment(ParseMain(main), fragment)
  }

  // ---------- printing ----------

  predicate ValidEncoded(s: string, mode: Mode) {
    forall c :: c in s ==> c in "!$&'()*+,;=:@[]%" || !ShouldEscape(c, mode)
  }

  function Encoded(raw: string, decoded: string, mode: Mode): string {
    if raw != [] && ValidEncoded(raw, mode) && Unescape(raw, mode) == Some(decoded) then raw
    else if mode == Path && decoded == "*" then "*"
    else Escape(decoded, mode)
  }

  function UserString(user: User): string {
    match user.password
    case None => Escape(user.name, UserPassword)
    case Some(p) => Escape(user.name, UserPassword) + ":" + Escape(p, UserPassword)
  }

  function PathString(u: Url): string {
    var path := Encoded(u.rawPath, u.path, Path);
    if path != [] && path[0] != '/' && u.host != [] then "/" + path else path
  }

  function AuthorityString(u: Url): string {
    (if u.user.Some? then UserString(u.user.value) + "@" else "") + Escape(u.host, Host)
  }

  function UrlString(u: Url): string {
    u.scheme + ":"
    + (if u.host != [] || u.path != [] || u.user.Some? then "//" + AuthorityString(u) else "")
    + PathString(u)
    + (if u.forceQuery || u.rawQuery != [] then "?" + u.rawQuery else "")
    + (if u.fragment != [] then "#" + Encoded(u.rawFragment, u.fragment, Fragment) else "")
  }

  /** net.SplitHostPort with the error dropped. */
  function SplitHostPort(hostport: string): (string, string) {
    var (host, port, found) := CutLast(hostport, ':');
    if !found then ("", "")
    else if hostport[0] == '[' then
      var (inner, after, closed) := Cut(hostport, ']');
      if !closed || after != [':'] + port || '[' in inner[1..] then ("", "")
      else (inner[1..], port)
    else if ':' in host || '[' in hostport || ']' in hostport then ("", "")
    else (host, port)
  }

  // ---------- what the panel's own links look like ----------

  predicate HostChar(c: char) {
    IsAlnum(c) || c in "-._~"
  }

  /** A host name or an IPv4 address. */
  predicate PlainHost(host: string) {
    forall c :: c in host ==> HostChar(c)
  }

  predicate UserSafeChar(c: char) {
    IsAlnum(c) || c in "-._~!$&'()*+,;=@"
  }

  /** Text that survives being printed raw in front of the "@". */
  predicate UserSafe(s: string) {
    forall c :: c in s ==> UserSafeChar(c)
  }

  predicate PlainScheme(s: string) {
    s != [] && 'a' <= s[0] <= 'z' && forall c :: c in s ==> 'a' <= c <= 'z' || '0' <= c <= '9'
  }

  // ---------- lemmas ----------

  lemma {:induction false} LowerPlain(s: string)
    requires forall c :: c in s ==> 'a' <= c <= 'z' || '0' <= c <= '9'
    ensures ToLower(s) == s
  {
    if s != [] {
      assert s[0] in s && forall c :: c in s[1..] ==> c in s;
      LowerPlain(s[1..]);
      assert [s[0]] + s[1..] == s;
    }
  }

  lemma PlainGetScheme(scheme: string, rest: string)
    requires PlainScheme(scheme)
    ensures GetScheme(scheme + ":" + rest) == Some((scheme, rest))
  {
    CutAt(scheme, ':', rest);
    LowerPlain(scheme);
    assert scheme[0] in scheme;
  }

  predicate HostPortChar(c: char) {
    HostChar(c) || c == ':'
  }

  lemma HostPortCharPlain(c: char)
    requires HostPortChar(c)
    ensures !ShouldEscape(c, Host) && !IsControl(c)
    ensures c != '/' && c != '?' && c != '#' && c != '@' && c != '%' && c != '[' && c != ']'
  {
  }

  lemma HostPortChars(host: string, port: nat)
    requires PlainHost(host)
    ensures forall c :: c in host + ":" + Itoa(port) ==> HostPortChar(c)
  {
    forall c | c in host + ":" + Itoa(port) ensures HostPortChar(c) {
      assert c in host || c == ':' || IsDigit(c);
    }
  }

  /** A plain host and a port are copied by every step. */
  lemma PlainHostPort(host: string, port: nat)
    requires PlainHost(host)
    ensures var hp := host + ":" + Itoa(port);
            && ParseHost(hp) == Some(hp) && Escape(hp, Host) == hp && SplitHostPort(hp) == (host, Itoa(port))
            && '/' !in hp && '?' !in hp && '#' !in hp && '@' !in hp && !HasControl(hp)
  {
    hide HostPortChar, HostChar, ShouldEscape, Escape, Unescape, Itoa, IsControl;
    var hp := host + ":" + Itoa(port);
    HostPortChars(host, port);
    forall c | c in hp
      ensures !ShouldEscape(c, Host) && !IsControl(c)
      ensures c != '/' && c != '?' && c != '#' && c != '@' && c != '%' && c != '[' && c != ']'
    {
      HostPortCharPlain(c);
    }
    UnescapeNothing(hp, Host);
    EscapeNothing(hp, Host);
    CutLastAt(host, ':', Itoa(port));
    assert hp[0] in hp;
    NoColon(host);
  }

  lemma NoColon(host: string)
    requires PlainHost(host)
    ensures ':' !in host
  {
  }

  // ---------- parsing a text piece by piece ----------

  /** An optional part, with its delimiter. */
  function Part(delimiter: char, text: string, present: bool): string {
    if present then [delimiter] + text else ""
  }

  lemma ParseUrlPieces(scheme: string, main: string, fragment: string, hasFragment: bool)
    requires PlainScheme(scheme) && '#' !in main && (fragment != [] ==> hasFragment)
    ensures ParseUrl(scheme + "://" + main + Part('#', fragment, hasFragment)) ==
            if HasControl(main) then None else WithFragment(ParseHier(scheme, main), fragment)
  {
    hide ParseHier, GetScheme, Unescape, PlainScheme, HasControl;
    var s := scheme + "://" + main;
    SchemeText(scheme);
    if hasFragment {
      CutAt(s, '#', fragment);
      assert s + Part('#', fragment, hasFragment) == s + ['#'] + fragment;
    } else {
      CutNone(s, '#');
      assert s + Part('#', fragment, hasFragment) == s;
    }
    ControlAppend(scheme + "://", main);
    if !HasControl(main) {
      MainOf(scheme, main);
    }
  }

  lemma MainOf(scheme: string, main: string)
    requires PlainScheme(scheme) && !HasControl(scheme + "://" + main)
    ensures ParseMain(scheme + "://" + main) == ParseHier(scheme, main)
  {
    hide ParseHier, GetScheme, PlainScheme, HasControl;
    var s := scheme + "://" + main;
    assert s == scheme + ":" + ("//" + main);
    PlainGetScheme(scheme, "//" + main);
    assert ("//" + main)[..2] == "//" && ("//" + main)[2..] == main;
  }

  lemma ControlAppend(a: string, b: string)
    ensures HasControl(a + b) <==> HasControl(a) || HasControl(b)
  {
    hide IsControl;
    assert forall c :: c in a + b <==> c in a || c in b;
  }

  lemma SchemeText(scheme: string)
    requires PlainScheme(scheme)
    ensures '#' !in scheme && !HasControl(scheme + "://")
  {
  }

  lemma QueryPieces(main: string, query: string, hasQuery: bool)
    requires '?' !in main && (query != [] ==> hasQuery)
    ensures CutQuery(main + Part('?', query, hasQuery)) == (main, hasQuery && query == [], query)
  {
    hide Cut;
    if hasQuery {
      CutAt(main, '?', query);
      assert main + Part('?', query, hasQuery) == main + ['?'] + query;
    } else {
      CutNone(main, '?');
      assert main + Part('?', query, hasQuery) == main && query == [];
    }
  }

  lemma PathPieces(authority: string, path: string)
    requires '/' !in authority && (path != [] ==> path[0] == '/')
    ensures CutPath(authority + path) == (authority, path)
  {
    hide Cut;
    if path != [] {
      CutAt(authority, '/', path[1..]);
      assert ['/'] + path[1..] == path;
      assert authority + path == authority + ['/'] + path[1..];
    } else {
      CutNone(authority, '/');
      assert authority + path == authority;
    }
  }

  lemma ParseAuthorityPieces(userinfo: string, host: string)
    requires '@' !in host
    ensures ParseAuthority(userinfo + "@" + host) ==
            (match ParseHost(host)
             case None => None
             case Some(h) =>
               match ParseUserinfo(userinfo) case None => None case Some(u) => Some((Some(u), h)))
  {
    CutLastAt(userinfo, '@', host);
  }

  // ---------- user names ----------

  lemma PrintedUserChars(user: User)
    ensures var s := UserString(user);
            && '/' !in s && '?' !in s && '#' !in s && '@' !in s && ValidUserinfo(s) && !HasControl(s)
  {
    EscapedChars(user.name, UserPassword);
    if user.password.Some? {
      EscapedChars(user.password.value, UserPassword);
    }
    hide EscapedChar, UserinfoChar, IsControl, Escape;
    forall c | c in UserString(user)
      ensures c != '/' && c != '?' && c != '#' && c != '@' && UserinfoChar(c) && !IsControl(c)
    {
      PrintedUserChar(c);
    }
  }

  lemma PrintedUserChar(c: char)
    requires EscapedChar(c, UserPassword) || c == ':'
    ensures c != '/' && c != '?' && c != '#' && c != '@' && UserinfoChar(c) && !IsControl(c)
  {
  }

  lemma PrintedUserColon(s: string)
    ensures ':' !in Escape(s, UserPassword)
  {
    EscapedChars(s, UserPassword);
  }

  ghost predicate UserOctets(user: User) {
    Octets(user.name) && (user.password.Some? ==> Octets(user.password.value))
  }

  /** A printed user name and password are read back, whatever bytes they hold. */
  lemma UserRoundTrip(user: User)
    requires UserOctets(user)
    ensures ParseUserinfo(UserString(user)) == Some(user)
  {
    hide Escape, Unescape, UserinfoChar;
    PrintedUserChars(user);
    PrintedUserColon(user.name);
    UnescapeEscape(user.name, UserPassword);
    match user.password
    case None => CutNone(UserString(user), ':');
    case Some(p) =>
      CutAt(Escape(user.name, UserPassword), ':', Escape(p, UserPassword));
      UnescapeEscape(p, UserPassword);
  }

  lemma UserSafeExact(c: char)
    ensures UserSafeChar(c) <==> UserinfoChar(c) && c != ':' && c != '%'
  {
  }

  /** Printed raw, exactly the safe texts are read back as the same user name. */
  lemma RawUserExact(p: string)
    ensures ParseUserinfo(p) == Some(User(p, None)) <==> UserSafe(p)
    ensures ParseUserinfo(p).Some? && ParseUserinfo(p).value.name == p ==> UserSafe(p)
    ensures ParseUserinfo(p).Some? ==> |ParseUserinfo(p).value.name| <= |p|
  {
    hide Unescape, UserinfoChar, UserSafeChar;
    forall c ensures UserSafeChar(c) <==> UserinfoChar(c) && c != ':' && c != '%' {
      UserSafeExact(c);
    }
    if ':' !in p {
      CutNone(p, ':');
    } else {
      CutFinds(p, ':');
    }
    var name := Cut(p, ':').0;
    if Unescape(name, UserPassword).Some? {
      UnescapeShortens(name, UserPassword);
    }
    if UserSafe(p) {
      UnescapeNothing(p, UserPassword);
    }
  }
}
