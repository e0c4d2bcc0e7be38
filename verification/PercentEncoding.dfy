/** Percent-encoding as in section 2.1 of RFC 3986, with the character classes of Go's net/url.
Strings are byte strings: one char per byte. */
module PercentEncoding {
  import opened Model

  datatype Mode = Path | UserPassword | Host | Query | Fragment

  ghost predicate Octets(s: string) {
    forall c :: c in s ==> (c as int) < 256
  }

  predicate IsAlnum(c: char) {
    'a' <= c <= 'z' || 'A' <= c <= 'Z' || '0' <= c <= '9'
  }

  predicate ShouldEscape(c: char, mode: Mode) {
    if IsAlnum(c) then false
    else if mode == Host && c in "!$&'()*+,;=:[]<>\"" then false
    else if c in "-_.~" then false
    else if c in "$&+,/:;=?@" then
      match mode
      case Path => c == '?'
      case UserPassword => c in "@/?:"
      case Query => true
      case Fragment => false
      case Host => true
    else if mode == Fragment && c in "!()*" then false
    else true
  }

  function Hex(d: nat): char
    requires d < 16
  {
    if d < 10 then '0' + d as char else 'A' + (d - 10) as char
  }

  predicate IsHex(c: char) {
    '0' <= c <= '9' || 'a' <= c <= 'f' || 'A' <= c <= 'F'
  }

  function Unhex(c: char): (r: nat)
    requires IsHex(c)
    ensures r < 16
  {
    if '0' <= c <= '9' then (c - '0') as nat
    else if 'a' <= c <= 'f' then (c - 'a') as nat + 10
    else (c - 'A') as nat + 10
  }

  function EscapeChar(c: char, mode: Mode): string {
    if !ShouldEscape(c, mode) then [c]
    else if c == ' ' && mode == Query then "+"
    else ['%', Hex(c as int / 16 % 16), Hex(c as int % 16)]
  }

  function Escape(s: string, mode: Mode): string {
    if s == [] then [] else EscapeChar(s[0], mode) + Escape(s[1..], mode)
  }

  /** An incomplete escape is an error; a host may only escape bytes above 0x7f, and "%". */
  function Unescape(s: string, mode: Mode): Option<string> {
    if s == [] then Some([])
    else if s[0] == '%' then
      if |s| < 3 || !IsHex(s[1]) || !IsHex(s[2]) then None
      else if mode == Host && Unhex(s[1]) < 8 && s[..3] != "%25" then None
      else Prepend((Unhex(s[1]) * 16 + Unhex(s[2])) as char, Unescape(s[3..], mode))
    else if mode == Host && s[0] as int < 128 && ShouldEscape(s[0], mode) then None
    else Prepend(if s[0] == '+' && mode == Query then ' ' else s[0], Unescape(s[1..], mode))
  }

  function Prepend(c: char, rest: Option<string>): Option<string> {
    if rest.None? then None else Some([c] + rest.value)
  }

  // ---------- round trip ----------

  lemma UnhexHex(d: nat)
    requires d < 16
    ensures IsHex(Hex(d)) && Unhex(Hex(d)) == d
  {
  }

  lemma AlwaysEscaped(mode: Mode)
    ensures ShouldEscape('%', mode) && ShouldEscape('+', Query)
  {
  }

  lemma UnescapeOne(c: char, rest: string, mode: Mode)
    requires (c as int) < 256 && mode != Host
    ensures Unescape(EscapeChar(c, mode) + rest, mode) == Prepend(c, Unescape(rest, mode))
  {
    hide ShouldEscape;
    AlwaysEscaped(mode);
    var s := EscapeChar(c, mode) + rest;
    if !ShouldEscape(c, mode) {
      assert s[1..] == rest;
    } else if c == ' ' && mode == Query {
      assert s[1..] == rest;
    } else {
      var high, low := c as int / 16, c as int % 16;
      UnhexHex(high);
      UnhexHex(low);
      assert s[0] == '%' && s[1] == Hex(high) && s[2] == Hex(low) && s[3..] == rest;
      assert high * 16 + low == c as int;
    }
  }

  lemma {:induction false} UnescapeEscape(s: string, mode: Mode)
    requires Octets(s) && mode != Host
    ensures Unescape(Escape(s, mode), mode) == Some(s)
  {
    hide EscapeChar, ShouldEscape;
    if s != [] {
      assert s[0] in s && forall c :: c in s[1..] ==> c in s;
      UnescapeOne(s[0], Escape(s[1..], mode), mode);
      UnescapeEscape(s[1..], mode);
      assert [s[0]] + s[1..] == s;
    }
  }

  /** What an escaped string can contain. */
  predicate EscapedChar(c: char, mode: Mode) {
    c == '%' || '0' <= c <= '9' || 'A' <= c <= 'F' || (c == '+' && mode == Query) || !ShouldEscape(c, mode)
  }

  lemma {:induction false} EscapedChars(s: string, mode: Mode)
    ensures forall c :: c in Escape(s, mode) ==> EscapedChar(c, mode)
  {
    if s != [] {
      EscapedChars(s[1..], mode);
      forall c | c in EscapeChar(s[0], mode) ensures EscapedChar(c, mode) {
      }
    }
  }

  /** Text that needs no escaping is copied. */
  lemma {:induction false} EscapeNothing(s: string, mode: Mode)
    requires forall c :: c in s ==> !ShouldEscape(c, mode)
    ensures Escape(s, mode) == s
  {
    if s != [] {
      EscapeNothing(s[1..], mode);
      assert [s[0]] + s[1..] == s;
    }
  }

  lemma {:induction false} UnescapeNothing(s: string, mode: Mode)
    requires forall c :: c in s ==> c != '%' && !(c == '+' && mode == Query)
                                    && (mode == Host ==> (c as int >= 128 || !ShouldEscape(c, mode)))
    ensures Unescape(s, mode) == Some(s)
  {
    hide ShouldEscape;
    if s != [] {
      assert s[0] in s && forall c :: c in s[1..] ==> c in s;
      UnescapeNothing(s[1..], mode);
      assert [s[0]] + s[1..] == s;
    }
  }

  /** Every escape shortens, so text with a "%" never decodes to itself. */
  lemma {:induction false} UnescapeShortens(s: string, mode: Mode)
    requires Unescape(s, mode).Some?
    ensures |Unescape(s, mode).value| <= |s|
    ensures '%' in s ==> |Unescape(s, mode).value| < |s|
  {
    hide ShouldEscape;
    if s != [] {
      if s[0] == '%' {
        UnescapeShortens(s[3..], mode);
      } else {
        UnescapeShortens(s[1..], mode);
      }
    }
  }

  lemma {:induction false} UnescapeOctets(s: string, mode: Mode)
    requires Octets(s) && Unescape(s, mode).Some?
    ensures Octets(Unescape(s, mode).value)
  {
    hide ShouldEscape;
    if s != [] {
      assert s[0] in s && forall c :: c in s[1..] ==> c in s;
      if s[0] == '%' {
        assert forall c :: c in s[3..] ==> c in s;
        UnescapeOctets(s[3..], mode);
      } else {
        UnescapeOctets(s[1..], mode);
      }
    }
  }
}
