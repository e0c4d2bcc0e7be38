/** The query part of a share link: key=value pairs joined by "&" (util/genLink.go:529-543, and Go's
url.ParseQuery and Values.Get). */
module Queries {
  import opened Model
  import opened Text
  import opened PercentEncoding

  /** The parameter names that printers and parsers use. */
  datatype Key =
    | Type | Host_ | Path_ | ServiceName | HeaderType
    | Security | Pbk | Sid | Insecure | AllowInsecure | DisableSni | Fp | Sni | Alpn | Ech
    | Flow | DownMbps | UpMbps | Obfs | ObfsPassword | FastOpen | MPort | CongestionControl | UdpRelayMode | Plugin
  {
    function Name(): string {
      match this
      case Type => "type"
      case Host_ => "host"
      case Path_ => "path"
      case ServiceName => "serviceName"
      case HeaderType => "headerType"
      case Security => "security"
      case Pbk => "pbk"
      case Sid => "sid"
      case Insecure => "insecure"
      case AllowInsecure => "allowInsecure"
      case DisableSni => "disable_sni"
      case Fp => "fp"
      case Sni => "sni"
      case Alpn => "alpn"
      case Ech => "ech"
      case Flow => "flow"
      case DownMbps => "downmbps"
      case UpMbps => "upmbps"
      case Obfs => "obfs"
      case ObfsPassword => "obfs-password"
      case FastOpen => "fastopen"
      case MPort => "mport"
      case CongestionControl => "congestion_control"
      case UdpRelayMode => "udp_relay_mode"
      case Plugin => "plugin"
    }
  }

  lemma NameInjective(a: Key, b: Key)
    requires a.Name() == b.Name()
    ensures a == b
  {
    var n := a.Name();
    assert n[0] == b.Name()[0] && |n| == |b.Name()|;
  }

  datatype LinkParam = LinkParam(key: Key, value: string)
  datatype Pair = Pair(name: string, value: string)

  /** Port lists and ALPN lists are printed as they are. */
  predicate PrintedRaw(key: Key) {
    key.MPort? || key.Alpn?
  }

  function ParamString(p: LinkParam): string {
    p.key.Name() + "=" + if PrintedRaw(p.key) then p.value else Escape(p.value, Query)
  }

  function ParamStrings(params: seq<LinkParam>): (r: seq<string>)
    ensures |r| == |params|
  {
    if params == [] then [] else [ParamString(params[0])] + ParamStrings(params[1..])
  }

  function QueryOf(params: seq<LinkParam>): string {
    Join(ParamStrings(params), '&')
  }

  function ParsePiece(piece: string): seq<Pair> {
    if ';' in piece || piece == [] then []
    else
      var (name, value, _) := Cut(piece, '=');
      match (Unescape(name, Query), Unescape(value, Query))
      case (Some(n), Some(v)) => [Pair(n, v)]
      case (_, _) => []
  }

  function ParseQuery(s: string): seq<Pair>
    decreases |s|
  {
    if s == [] then []
    else
      var (piece, rest, found) := Cut(s, '&');
      ParsePiece(piece) + if found then assert |rest| < |s| by { CutShorter(s, '&'); } ParseQuery(rest) else []
  }

  /** Values.Get: the first value, or nothing. */
  function Get(q: seq<Pair>, k: Key): string {
    if q == [] then "" else if q[0].name == k.Name() then q[0].value else Get(q[1..], k)
  }

  // ---------- round trip ----------

  function Lookup(params: seq<LinkParam>, k: Key): string {
    if params == [] then "" else if params[0].key == k then params[0].value else Lookup(params[1..], k)
  }

  predicate RawChar(c: char) {
    ' ' <= c && c as int < 256 && c as int != 127 && c != '&' && c != ';' && c != '%' && c != '+' && c != '#'
  }

  ghost predicate SafeParam(p: LinkParam) {
    if PrintedRaw(p.key) then forall c :: c in p.value ==> RawChar(c) else Octets(p.value)
  }

  ghost predicate SafeParams(params: seq<LinkParam>) {
    forall p :: p in params ==> SafeParam(p)
  }

  function Named(params: seq<LinkParam>): seq<Pair> {
    if params == [] then [] else [Pair(params[0].key.Name(), params[0].value)] + Named(params[1..])
  }

  predicate NameChar(c: char) {
    IsAlnum(c) || c == '_' || c == '-'
  }

  lemma NameChars(k: Key)
    ensures k.Name() != [] && forall c :: c in k.Name() ==> NameChar(c)
  {
  }

  /** What a printed parameter can contain. */
  predicate ParamChar(c: char) {
    ' ' < c && c as int != 127 && c != '&' && c != ';' && c != '#'
  }

  lemma ParamCharClasses(c: char)
    ensures NameChar(c) || EscapedChar(c, Query) ==> ParamChar(c)
    ensures NameChar(c) ==> c != '=' && c != '%' && c != '+' && c != '&'
    ensures ParamChar(c) || RawChar(c) ==> ' ' <= c && c != '&' && c != ';' && c != '#' && c as int != 127
  {
  }

  lemma ParamChars(p: LinkParam)
    requires SafeParam(p)
    ensures forall c :: c in ParamString(p) ==> ParamChar(c) || RawChar(c)
  {
    hide ParamChar, RawChar, NameChar, EscapedChar, Escape;
    NameChars(p.key);
    EscapedChars(p.value, Query);
    forall c | c in ParamString(p) ensures ParamChar(c) || RawChar(c) {
      ParamCharClasses(c);
      ParamCharClasses('=');
      assert ParamChar('=') by { EqualsSign(); }
    }
  }

  lemma EqualsSign()
    ensures ParamChar('=')
  {
  }

  lemma ParamSeparators(p: LinkParam)
    requires SafeParam(p)
    ensures var s := ParamString(p);
            s != [] && '&' !in s && ';' !in s && '#' !in s && forall c :: c in s ==> ' ' <= c && c as int != 127
  {
    hide Escape;
    NameChars(p.key);
    ParamChars(p);
  }

  lemma ParsePieceOf(p: LinkParam)
    requires SafeParam(p)
    ensures ParsePiece(ParamString(p)) == [Pair(p.key.Name(), p.value)]
  {
    hide ParamChar, RawChar, NameChar, ShouldEscape, Escape, Unescape;
    ParamSeparators(p);
    NameChars(p.key);
    var value := if PrintedRaw(p.key) then p.value else Escape(p.value, Query);
    forall c | c in p.key.Name() ensures c != '=' && c != '%' && c != '+' {
      ParamCharClasses(c);
    }
    CutAt(p.key.Name(), '=', value);
    UnescapeNothing(p.key.Name(), Query);
    if PrintedRaw(p.key) {
      RawUnescaped(p.value);
    } else {
      UnescapeEscape(p.value, Query);
    }
  }

  lemma RawUnescaped(s: string)
    requires forall c :: c in s ==> RawChar(c)
    ensures Unescape(s, Query) == Some(s)
  {
    hide ShouldEscape, Unescape;
    UnescapeNothing(s, Query);
  }

  /** Parsing a printed query gives back every parameter, in order. */
  lemma {:induction false} ParseQueryOf(params: seq<LinkParam>)
    requires SafeParams(params)
    ensures ParseQuery(QueryOf(params)) == Named(params)
  {
    hide ParsePiece, ParamString, SafeParam;
    if params != [] {
      assert params[0] in params && forall p :: p in params[1..] ==> p in params;
      var piece := ParamString(params[0]);
      ParamSeparators(params[0]);
      ParsePieceOf(params[0]);
      ParseQueryOf(params[1..]);
      var items := ParamStrings(params);
      assert items[1..] == ParamStrings(params[1..]);
      if |params| == 1 {
        assert params[1..] == [];
        CutNone(piece, '&');
      } else {
        CutAt(piece, '&', Join(items[1..], '&'));
      }
    }
  }

  lemma {:induction false} QueryChars(params: seq<LinkParam>)
    requires SafeParams(params)
    ensures forall c :: c in QueryOf(params) ==> ' ' <= c && c as int != 127 && c != '#'
    ensures QueryOf(params) == [] <==> params == []
  {
    hide ParamString, SafeParam;
    if params != [] {
      assert params[0] in params && forall p :: p in params[1..] ==> p in params;
      ParamSeparators(params[0]);
      QueryChars(params[1..]);
      assert ParamStrings(params)[1..] == ParamStrings(params[1..]);
    }
  }

  lemma {:induction false} GetNamed(params: seq<LinkParam>, k: Key)
    ensures Get(Named(params), k) == Lookup(params, k)
  {
    if params != [] {
      GetNamed(params[1..], k);
      assert Named(params)[1..] == Named(params[1..]);
      if params[0].key.Name() == k.Name() {
        NameInjective(params[0].key, k);
      }
    }
  }

  // ---------- parameter lists ----------

  function Opt(key: Key, value: Option<string>): seq<LinkParam> {
    match value case None => [] case Some(v) => [LinkParam(key, v)]
  }

  function OrEmpty(value: Option<string>): string {
    match value case None => "" case Some(v) => v
  }
}
