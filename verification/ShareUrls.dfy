/** Building a share link: parse the bare URI, set query and fragment, print it again
(util/genLink.go:529-543), and what parsing it gives back. */
module ShareUrls {
  import opened Model
  import opened Text
  import opened PercentEncoding
  import opened Urls
  import opened Queries

  /** The bare URI of a link, with the user part printed raw. */
  function BareUri(scheme: string, userinfo: string, host: string, port: nat): string {
    scheme + "://" + userinfo + "@" + host + ":" + Itoa(port)
  }

  /** `None` stands for the nil URL on which the program would crash. */
  function AddParams(uri: string, params: seq<LinkParam>, remark: string): Option<string> {
    match ParseUrl(uri)
    case None => None
    case Some(u) => Some(UrlString(u.(rawQuery := QueryOf(params), fragment := remark)))
  }

  function UserName(u: Url): string {
    match u.user case None => "" case Some(user) => user.name
  }

  function Password(u: Url): string {
    match u.user case None => "" case Some(user) => OrEmpty(user.password)
  }

  /** A raw user part that is cut off nowhere and decodes to `user`. */
  ghost predicate Reads(userinfo: string, user: User) {
    && ParseUserinfo(userinfo) == Some(user) && UserOctets(user)
    && '/' !in userinfo && '?' !in userinfo && '#' !in userinfo && !HasControl(userinfo)
  }

  lemma BareUriParses(scheme: string, userinfo: string, user: User, host: string, port: nat)
    requires PlainScheme(scheme) && Reads(userinfo, user) && PlainHost(host)
    ensures ParseUrl(BareUri(scheme, userinfo, host, port))
            == Some(Url(scheme, Some(user), host + ":" + Itoa(port), "", "", false, "", "", ""))
  {
    hide ParseUserinfo, ParseHost, PlainHost, HasControl, PlainScheme, CutQuery, CutPath, ParseAuthority, UserOctets,
         Escape, Unescape;
    var hp := host + ":" + Itoa(port);
    PlainHostPort(host, port);
    var main := userinfo + "@" + hp;
    assert BareUri(scheme, userinfo, host, port) == scheme + "://" + main + Part('#', "", false);
    NoControlIn(userinfo, hp);
    ParseUrlPieces(scheme, main, "", false);
    assert main + Part('?', "", false) == main && main + "" == main;
    NothingPrinted();
    QueryPieces(main, "", false);
    PathPieces(main, "");
    ParseAuthorityPieces(userinfo, hp);
  }

  lemma NoControlIn(a: string, b: string)
    ensures HasControl(a + "@" + b) <==> HasControl(a) || HasControl(b)
  {
    ControlAppend(a, "@");
    ControlAppend(a + "@", b);
  }

  /** The printed URL, cut into the pieces the parser looks for. */
  lemma UrlPieces(u: Url)
    requires u.user.Some? || u.host != [] || u.path != []
    ensures UrlString(u) ==
            u.scheme + "://"
            + (AuthorityString(u) + PathString(u) + Part('?', u.rawQuery, u.forceQuery || u.rawQuery != []))
            + Part('#', Encoded(u.rawFragment, u.fragment, Fragment), u.fragment != [])
  {
    hide AuthorityString, PathString, Encoded;
    assert "?" == ['?'] && "#" == ['#'];
    assert u.scheme + "://" == u.scheme + ":" + "//";
  }

  lemma PrintedUrlParses(scheme: string, user: User, host: string, port: nat, query: string, remark: string)
    requires PlainScheme(scheme) && UserOctets(user) && PlainHost(host) && Octets(remark)
    requires '#' !in query && !HasControl(query)
    ensures var u := Url(scheme, Some(user), host + ":" + Itoa(port), "", "", false, query, remark, "");
            ParseUrl(UrlString(u)) == Some(u)
  {
    hide ParseUserinfo, ParseHost, PlainHost, HasControl, PlainScheme, CutQuery, CutPath, ParseAuthority, UserString,
         Escape, Unescape;
    var hp := host + ":" + Itoa(port);
    var u := Url(scheme, Some(user), hp, "", "", false, query, remark, "");
    UrlPieces(u);
    PlainHostPort(host, port);
    PrintedUserChars(user);
    UserRoundTrip(user);
    var authority := UserString(user) + "@" + hp;
    NothingPrinted();
    var main := authority + Part('?', query, query != []);
    assert authority + "" == authority;
    NoControlIn(UserString(user), hp);
    QuestionMark(query);
    ControlAppend(authority, Part('?', query, query != []));
    EscapedChars(remark, Fragment);
    FragmentChars(remark);
    ParseUrlPieces(scheme, main, Escape(remark, Fragment), remark != []);
    QueryPieces(authority, query, query != []);
    PathPieces(authority, "");
    ParseAuthorityPieces(UserString(user), hp);
    UnescapeEscape(remark, Fragment);
  }

  lemma NothingPrinted()
    ensures forall m :: Escape("", m) == "" && Unescape("", m) == Some("") && Encoded("", "", m) == ""
  {
  }

  lemma QuestionMark(query: string)
    requires !HasControl(query)
    ensures !HasControl(Part('?', query, query != []))
  {
  }

  lemma FragmentChars(remark: string)
    ensures '#' !in Escape(remark, Fragment)
    ensures remark == [] ==> Escape(remark, Fragment) == []
  {
    EscapedChars(remark, Fragment);
  }

  /** A share link parses back to its user, host, port, parameters and tag, whatever bytes the
      parameter values and the tag hold. */
  lemma LinkRoundTrip(scheme: string, userinfo: string, user: User, host: string, port: nat, params: seq<LinkParam>,
                      remark: string)
    requires PlainScheme(scheme) && Reads(userinfo, user) && PlainHost(host)
    requires SafeParams(params) && Octets(remark)
    ensures var link := AddParams(BareUri(scheme, userinfo, host, port), params, remark);
            && link.Some?
            && ParseUrl(link.value)
               == Some(Url(scheme, Some(user), host + ":" + Itoa(port), "", "", false, QueryOf(params), remark, ""))
            && ParseQuery(QueryOf(params)) == Named(params)
            && SplitHostPort(host + ":" + Itoa(port)) == (host, Itoa(port))
  {
    hide ParseUrl, UrlString, BareUri, QueryOf, ParseQuery, SafeParams, SplitHostPort, ParseUserinfo;
    BareUriParses(scheme, userinfo, user, host, port);
    QueryChars(params);
    PrintedUrlParses(scheme, user, host, port, QueryOf(params), remark);
    ParseQueryOf(params);
    PlainHostPort(host, port);
  }

  // ---------- which user parts survive ----------

  /** The authority that a bare URI is read as: everything, or less than the user part. */
  lemma AuthorityOf(p: string, hp: string)
    requires '#' !in hp && '?' !in hp && '/' !in hp
    ensures var authority := Cut(Cut(Cut(p + hp, '#').0, '?').0, '/').0;
            |authority| < |p| || authority == p + hp
  {
    hide Cut;
    var x := p + hp;
    var main := Cut(x, '#').0;
    CutPieces(x, '#');
    CutPieces(main, '?');
    CutAppend(p, hp, '#');
    CutAppend(p, hp, '?');
    CutAppend(p, hp, '/');
    CutShrinks(main, '?');
    CutShrinks(Cut(main, '?').0, '/');
  }

  lemma CutShrinks(s: string, sep: char)
    ensures |Cut(s, sep).0| <= |s|
  {
  }

  lemma FirstParse(scheme: string, p: string, host: string, port: nat)
    requires PlainScheme(scheme) && PlainHost(host)
    requires ParseUrl(BareUri(scheme, p, host, port)).Some?
    ensures RootedUrl(scheme, ParseUrl(BareUri(scheme, p, host, port)).value)
    ensures UserName(ParseUrl(BareUri(scheme, p, host, port)).value) == p ==> UserSafe(p)
  {
    hide ParseHier, ParseAuthority, ParseUserinfo, ParseHost, PlainHost, HasControl, PlainScheme, UserSafe, Cut,
         Unescape,
         Escape, RootedUrl;
    var hp := host + ":" + Itoa(port);
    var x := p + ("@" + hp);
    PlainHostPort(host, port);
    assert BareUri(scheme, p, host, port) == scheme + "://" + x;
    CutPieces(x, '#');
    var (main, fragment, found) := Cut(x, '#');
    assert scheme + "://" + x == scheme + "://" + main + Part('#', fragment, found);
    ParseUrlPieces(scheme, main, fragment, found);
    HierUser(scheme, main);
    HierRooted(scheme, main, ParseUrl(BareUri(scheme, p, host, port)).value);
    AuthorityOf(p, "@" + hp);
    var authority := Cut(Cut(main, '?').0, '/').0;
    if |authority| < |p| {
      ShortAuthority(authority);
    } else {
      assert x == p + "@" + hp;
      ParseAuthorityPieces(p, hp);
      RawUserExact(p);
    }
  }

  /** What a parsed URL is known to satisfy when it is printed again. */
  ghost predicate RootedUrl(scheme: string, u: Url) {
    && u.scheme == scheme
    && (u.path == [] ==> u.rawPath == [])
    && (u.path != [] ==> u.path[0] == '/' && (u.rawPath == [] || u.rawPath[0] == '/'))
    && (u.user.Some? ==> UserOctets(u.user.value))
  }

  lemma HierRooted(scheme: string, main: string, u: Url)
    requires ParseHier(scheme, main).Some?
    requires var h := ParseHier(scheme, main).value;
             u.scheme == h.scheme && u.path == h.path && u.rawPath == h.rawPath && u.user == h.user
    ensures RootedUrl(scheme, u)
  {
    hide ParseHost, ParseUserinfo, Escape;
    var (authority, path) := CutPath(CutQuery(main).0);
    if path != [] {
      assert path[0] == '/';
    }
    var userinfo := CutLast(authority, '@').0;
    if u.user.Some? {
      ParsedUserOctets(userinfo);
    }
    NothingPrinted();
  }

  lemma ParsedUserOctets(s: string)
    requires ParseUserinfo(s).Some?
    ensures UserOctets(ParseUserinfo(s).value)
  {
    hide Unescape, UserinfoChar;
    CutPieces(s, ':');
    assert ValidUserinfo(s);
    forall c | c in s ensures c as int < 256 {
      UserinfoAscii(c);
    }
    var (name, password, found) := Cut(s, ':');
    assert forall c :: c in name || c in password ==> c in s;
    UnescapeOctets(name, UserPassword);
    if found {
      UnescapeOctets(password, UserPassword);
    }
  }

  lemma UserinfoAscii(c: char)
    requires UserinfoChar(c)
    ensures c as int < 128
  {
  }

  /** The user comes from the authority. */
  lemma HierUser(scheme: string, main: string)
    requires ParseHier(scheme, main).Some?
    ensures var authority := Cut(Cut(main, '?').0, '/').0;
            && ParseAuthority(authority).Some?
            && ParseHier(scheme, main).value.user == ParseAuthority(authority).value.0
            && ParseHier(scheme, main).value.scheme == scheme
            && |authority| <= |Cut(main, '?').0| <= |main|
  {
    hide ParseAuthority, Cut;
  }

  lemma ShortAuthority(authority: string)
    requires ParseAuthority(authority).Some?
    ensures var user := ParseAuthority(authority).value.0;
            user.Some? ==> |user.value.name| <= |authority|
  {
    hide ParseUserinfo, ParseHost;
    RawUserExact(CutLast(authority, '@').0);
  }

  lemma PrintedPathChar(c: char)
    requires EscapedChar(c, Path) || !ShouldEscape(c, Path) || c in "!$&'()*+,;=:@[]%"
    ensures c != '?' && c != '#'
  {
  }

  lemma PrintedHostChar(c: char)
    requires EscapedChar(c, Host)
    ensures c != '/' && c != '?' && c != '#' && c != '@'
  {
  }

  lemma PrintedPath(scheme: string, u: Url)
    requires RootedUrl(scheme, u)
    ensures var path := PathString(u); '?' !in path && '#' !in path && (path != [] ==> path[0] == '/')
  {
    hide EscapedChar, ShouldEscape, Unescape, UserOctets;
    var path := Encoded(u.rawPath, u.path, Path);
    EscapedChars(u.path, Path);
    NothingPrinted();
    forall c | c in path ensures c != '?' && c != '#' {
      PrintedPathChar(c);
    }
    if u.path != [] {
      assert u.path[0] == '/';
      SlashStays();
    }
  }

  lemma SlashStays()
    ensures !ShouldEscape('/', Path)
  {
  }

  lemma PrintedAuthority(u: Url)
    ensures var a := AuthorityString(u); '/' !in a && '?' !in a && '#' !in a
    ensures '@' !in Escape(u.host, Host)
  {
    hide EscapedChar, UserString, Escape;
    EscapedChars(u.host, Host);
    if u.user.Some? {
      PrintedUserChars(u.user.value);
    }
    forall c | c in Escape(u.host, Host) ensures c != '/' && c != '?' && c != '#' && c != '@' {
      PrintedHostChar(c);
    }
  }

  lemma AuthorityUser(u: Url)
    requires u.user.Some? ==> UserOctets(u.user.value)
    requires ParseAuthority(AuthorityString(u)).Some?
    ensures ParseAuthority(AuthorityString(u)).value.0 == u.user
  {
    hide ParseUserinfo, ParseHost, UserString, Escape, UserOctets;
    PrintedAuthority(u);
    if u.user.Some? {
      UserRoundTrip(u.user.value);
      ParseAuthorityPieces(UserString(u.user.value), Escape(u.host, Host));
    } else {
      assert AuthorityString(u) == Escape(u.host, Host);
      CutLastNone(Escape(u.host, Host), '@');
    }
  }

  /** Printing a parsed URL with a new query and tag loses no user name. */
  lemma SecondParse(scheme: string, u: Url)
    requires PlainScheme(scheme) && RootedUrl(scheme, u) && '#' !in u.rawQuery
    requires u.user.Some? || u.host != [] || u.path != []
    ensures ParseUrl(UrlString(u)).Some? ==> ParseUrl(UrlString(u)).value.user == u.user
  {
    hide AuthorityString, PathString, ParseAuthority, HasControl, UserOctets, RootedUrl, PlainScheme, Encoded, Cut,
         CutQuery,
         CutPath, Unescape;
    UrlPieces(u);
    PrintedPath(scheme, u);
    PrintedAuthority(u);
    var authority, path := AuthorityString(u), PathString(u);
    var hasQuery := u.forceQuery || u.rawQuery != [];
    var main := authority + path + Part('?', u.rawQuery, hasQuery);
    var fragment := if u.fragment != [] then Encoded(u.rawFragment, u.fragment, Fragment) else "";
    assert RootedUrl(scheme, u) ==> u.scheme == scheme by { RootedScheme(scheme, u); }
    assert Part('#', Encoded(u.rawFragment, u.fragment, Fragment), u.fragment != [])
        == Part('#', fragment, u.fragment != []);
    ParseUrlPieces(scheme, main, fragment, u.fragment != []);
    QueryPieces(authority + path, u.rawQuery, hasQuery);
    PathPieces(authority, path);
    RootedScheme(scheme, u);
    if ParseAuthority(authority).Some? {
      AuthorityUser(u);
    }
  }

  lemma RootedScheme(scheme: string, u: Url)
    requires RootedUrl(scheme, u)
    ensures u.scheme == scheme && (u.user.Some? ==> UserOctets(u.user.value))
  {
  }

  lemma NoAuthorityNoUrl(scheme: string, u: Url)
    requires PlainScheme(scheme) && RootedUrl(scheme, u) && u.user.None? && u.host == [] && u.path == []
    ensures ParseUrl(UrlString(u)).None?
  {
    hide PlainScheme, Encoded, HasControl, Escape, Unescape;
    NothingPrinted();
    var query := Part('?', u.rawQuery, u.forceQuery || u.rawQuery != []);
    var fragment := Part('#', Encoded(u.rawFragment, u.fragment, Fragment), u.fragment != []);
    var s := UrlString(u);
    assert s == scheme + ":" + (query + fragment);
    CutPieces(s, '#');
    var main := Cut(s, '#').0;
    SchemeText(scheme);
    NoSlashes(scheme, query, fragment);
  }

  lemma NoSlashes(scheme: string, query: string, fragment: string)
    requires PlainScheme(scheme)
    requires query == [] || query[0] == '?'
    requires fragment == [] || fragment[0] == '#'
    ensures ParseMain(Cut(scheme + ":" + (query + fragment), '#').0).None?
  {
    hide PlainScheme, GetScheme, ParseHier, HasControl, Cut;
    SchemeText(scheme);
    CutAppend(scheme + ":", query + fragment, '#');
    var rest := Cut(query + fragment, '#').0;
    CutPieces(query + fragment, '#');
    assert rest != [] ==> rest[0] == (query + fragment)[0];
    PlainGetScheme(scheme, rest);
  }

  /** The finished link, when it can be parsed, has the user that the bare URI was read with. */
  lemma LinkKeepsUser(scheme: string, p: string, host: string, port: nat, params: seq<LinkParam>, remark: string)
    requires PlainScheme(scheme) && PlainHost(host) && SafeParams(params)
    ensures var first, link := ParseUrl(BareUri(scheme, p, host, port)),
                               AddParams(BareUri(scheme, p, host, port), params, remark);
            && (link.Some? <==> first.Some?)
            && (link.Some? && ParseUrl(link.value).Some? ==> ParseUrl(link.value).value.user == first.value.user)
  {
    hide ParseUrl, UrlString, BareUri, QueryOf, SafeParams, UserSafe, RootedUrl;
    QueryChars(params);
    var first := ParseUrl(BareUri(scheme, p, host, port));
    if first.Some? {
      FirstParse(scheme, p, host, port);
      var u := first.value.(rawQuery := QueryOf(params), fragment := remark);
      StillRooted(scheme, first.value, u);
      if u.user.Some? || u.host != [] || u.path != [] {
        SecondParse(scheme, u);
      } else {
        NoAuthorityNoUrl(scheme, u);
      }
    }
  }

  /** A user part printed raw is read back from the finished link exactly when it is safe. */
  lemma UserSurvivesExactly(scheme: string, p: string, host: string, port: nat, params: seq<LinkParam>, remark: string)
    requires PlainScheme(scheme) && PlainHost(host) && SafeParams(params) && Octets(remark)
    ensures var link := AddParams(BareUri(scheme, p, host, port), params, remark);
            link.Some? && ParseUrl(link.value).Some? && UserName(ParseUrl(link.value).value) == p <==> UserSafe(p)
  {
    hide ParseUrl, AddParams, BareUri, SafeParams, UserSafe, RootedUrl, QueryOf;
    LinkKeepsUser(scheme, p, host, port, params, remark);
    if UserSafe(p) {
      SafeReads(p);
      LinkRoundTrip(scheme, p, User(p, None), host, port, params, remark);
    } else if ParseUrl(BareUri(scheme, p, host, port)).Some? {
      FirstParse(scheme, p, host, port);
    }
  }

  lemma StillRooted(scheme: string, a: Url, b: Url)
    requires RootedUrl(scheme, a)
    requires b == a.(rawQuery := b.rawQuery, fragment := b.fragment)
    ensures RootedUrl(scheme, b)
  {
  }

  lemma SafeChar(c: char)
    requires UserSafeChar(c)
    ensures c as int < 128 && c != '/' && c != '?' && c != '#' && !IsControl(c)
  {
  }

  lemma SafeReads(p: string)
    requires UserSafe(p)
    ensures Reads(p, User(p, None))
  {
    hide UserSafeChar, IsControl, ParseUserinfo;
    RawUserExact(p);
    forall c | c in p ensures c as int < 256 && c != '/' && c != '?' && c != '#' && !IsControl(c) {
      SafeChar(c);
    }
  }

  // ---------- a user name and a password ----------

  /** A password printed raw stands after the first colon, so it may hold further colons. */
  predicate PasswordSafe(s: string) {
    forall c :: c in s ==> UserSafeChar(c) || c == ':'
  }

  lemma PasswordChar(c: char)
    ensures UserSafeChar(c) || c == ':' ==>
              c as int < 256 && c != '/' && c != '?' && c != '#' && !IsControl(c) && c != '%'
    ensures UserSafeChar(c) <==> UserinfoChar(c) && c != ':' && c != '%'
    ensures UserinfoChar(':')
  {
  }

  lemma PasswordReads(name: string, password: string)
    requires UserSafe(name) && PasswordSafe(password)
    ensures Reads(name + ":" + password, User(name, Some(password)))
  {
    hide UserSafeChar, IsControl, Unescape, UserinfoChar;
    var s := name + ":" + password;
    forall c | c in s
      ensures UserinfoChar(c) && c as int < 256 && c != '/' && c != '?' && c != '#' && !IsControl(c) && c != '%'
    {
      PasswordChar(c);
    }
    assert forall c :: c in name || c in password ==> c in s;
    assert ':' !in name by {
      PasswordChar(':');
    }
    CutAt(name, ':', password);
    UnescapeNothing(name, UserPassword);
    UnescapeNothing(password, UserPassword);
  }

  lemma CutIndex(s: string, sep: char)
    requires sep in s
    ensures var n := |Cut(s, sep).0|; n < |s| && s[n] == sep && Cut(s, sep).0 == s[..n]
  {
    CutPieces(s, sep);
  }

  /** Where the authority of a bare URI ends: after the host, or inside the user part at a delimiter. */
  lemma AuthorityEnds(p: string, hp: string) returns (k: nat)
    requires '#' !in hp && '?' !in hp && '/' !in hp
    ensures var authority := Cut(Cut(Cut(p + hp, '#').0, '?').0, '/').0;
            if k < |p| then p[k] in "/?#" && authority == p[..k] else authority == p + hp
  {
    hide Cut;
    var text, cut := p, false;
    k := |p|;
    k, text, cut := EndsAt(p, hp, p, false, '#');
    k, text, cut := EndsAt(p, hp, text, cut, '?');
    k, text, cut := EndsAt(p, hp, text, cut, '/');
  }

  /** One cut more: `text` is what is left of `p`, and `cut` says that the rest is gone. */
  lemma EndsAt(p: string, hp: string, text: string, cut: bool, sep: char) returns (k: nat, left: string, cut': bool)
    requires sep in "/?#" && sep !in hp
    requires |text| <= |p| && text == p[..|text|]
    requires (cut ==> |text| < |p| && p[|text|] in "/?#") && (!cut ==> text == p)
    ensures k == |left| <= |p| && left == p[..k] && (cut' ==> k < |p| && p[k] in "/?#") && (!cut' ==> left == p)
    ensures Cut(if cut then text else p + hp, sep).0 == if cut' then left else p + hp
  {
    hide Cut;
    if sep in text {
      CutIndex(text, sep);
      CutAppend(p, hp, sep);
      left := Cut(text, sep).0;
      k, cut' := |left|, true;
      assert p[k] == text[k];
    } else {
      CutNone(text, sep);
      CutAppend(p, hp, sep);
      k, left, cut' := |text|, text, cut;
    }
  }

  /** A truncated user part is not read as the name and password it was printed from. */
  lemma TruncatedPair(name: string, password: string, k: nat)
    requires k < |name + ":" + password| && (name + ":" + password)[k] in "/?#"
    requires ParseAuthority((name + ":" + password)[..k]).Some?
    ensures var user := ParseAuthority((name + ":" + password)[..k]).value.0;
            !((match user case None => "" case Some(u) => u.name) == name
              && (match user case None => "" case Some(u) => OrEmpty(u.password)) == password)
  {
    hide ParseHost, Unescape, UserinfoChar;
    var p := name + ":" + password;
    var (userinfo, _, found) := CutLast(p[..k], '@');
    if found {
      assert |userinfo| < k by { CutLastShorter(p[..k], '@'); }
      if ParseUserinfo(userinfo).Some? {
        UserinfoLength(userinfo);
      }
    }
  }

  lemma CutLastShorter(s: string, sep: char)
    requires CutLast(s, sep).2
    ensures |CutLast(s, sep).0| < |s|
  {
  }

  lemma UserinfoLength(s: string)
    requires ParseUserinfo(s).Some?
    ensures var u := ParseUserinfo(s).value;
            |u.name| + |OrEmpty(u.password)| + (if u.password.Some? then 1 else 0) <= |s|
  {
    hide Unescape, UserinfoChar;
    var (name, password, found) := Cut(s, ':');
    UnescapeShortens(name, UserPassword);
    if found {
      CutPieces(s, ':');
      CutFinds(s, ':');
      UnescapeShortens(password, UserPassword);
    }
  }

  lemma RawPairExact(name: string, password: string)
    requires ParseUserinfo(name + ":" + password).Some?
    requires var u := ParseUserinfo(name + ":" + password).value; u.name == name && OrEmpty(u.password) == password
    ensures UserSafe(name) && PasswordSafe(password)
  {
    hide Unescape, UserinfoChar, UserSafeChar;
    var p := name + ":" + password;
    forall c ensures UserSafeChar(c) <==> UserinfoChar(c) && c != ':' && c != '%' {
      PasswordChar(c);
    }
    assert forall c :: c in name || c in password ==> c in p;
    var (first, rest, found) := Cut(p, ':');
    UnescapeShortens(first, UserPassword);
    if ':' in name {
      assert p == name + (":" + password);
      CutInside(name, ":" + password, ':');
    } else {
      CutAt(name, ':', password);
      UnescapeShortens(rest, UserPassword);
    }
  }

  lemma FirstPair(scheme: string, name: string, password: string, host: string, port: nat)
    requires PlainScheme(scheme) && PlainHost(host)
    requires ParseUrl(BareUri(scheme, name + ":" + password, host, port)).Some?
    ensures var u := ParseUrl(BareUri(scheme, name + ":" + password, host, port)).value;
            UserName(u) == name && Password(u) == password ==> UserSafe(name) && PasswordSafe(password)
  {
    hide ParseHier, ParseAuthority, ParseUserinfo, ParseHost, PlainHost, HasControl, PlainScheme, UserSafe,
         PasswordSafe, Cut, Unescape, Escape;
    var p, hp := name + ":" + password, host + ":" + Itoa(port);
    var x := p + ("@" + hp);
    PlainHostPort(host, port);
    assert BareUri(scheme, p, host, port) == scheme + "://" + x;
    CutPieces(x, '#');
    var (main, fragment, found) := Cut(x, '#');
    assert scheme + "://" + x == scheme + "://" + main + Part('#', fragment, found);
    ParseUrlPieces(scheme, main, fragment, found);
    HierUser(scheme, main);
    var k := AuthorityEnds(p, "@" + hp);
    if k < |p| {
      TruncatedPair(name, password, k);
    } else {
      assert x == p + "@" + hp;
      ParseAuthorityPieces(p, hp);
      var user := ParseUserinfo(p);
      if user.Some? && user.value.name == name && OrEmpty(user.value.password) == password {
        RawPairExact(name, password);
      }
    }
  }

  /** A name and a password printed raw are both read back from the finished link exactly when the name
      is safe and the password is safe up to colons. */
  lemma PairSurvivesExactly(scheme: string, name: string, password: string, host: string, port: nat,
                            params: seq<LinkParam>, remark: string)
    requires PlainScheme(scheme) && PlainHost(host) && SafeParams(params) && Octets(remark)
    ensures var link := AddParams(BareUri(scheme, name + ":" + password, host, port), params, remark);
            link.Some? && ParseUrl(link.value).Some? && UserName(ParseUrl(link.value).value) == name
            && Password(ParseUrl(link.value).value) == password
            <==> UserSafe(name) && PasswordSafe(password)
  {
    hide ParseUrl, AddParams, BareUri, SafeParams, UserSafe, PasswordSafe, QueryOf, Reads;
    var p := name + ":" + password;
    LinkKeepsUser(scheme, p, host, port, params, remark);
    if UserSafe(name) && PasswordSafe(password) {
      PasswordReads(name, password);
      LinkRoundTrip(scheme, p, User(name, Some(password)), host, port, params, remark);
    } else if ParseUrl(BareUri(scheme, p, host, port)).Some? {
      FirstPair(scheme, name, password, host, port);
    }
  }
}
