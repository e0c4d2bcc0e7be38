/** Standard Base64, section 4 of RFC 4648, as Go's base64.StdEncoding decodes it. */
module Base64 {
  import opened Model
  import opened PercentEncoding

  function Symbol(v: nat): char
    requires v < 64
  {
    if v < 26 then 'A' + v as char
    else if v < 52 then 'a' + (v - 26) as char
    else if v < 62 then '0' + (v - 52) as char
    else if v == 62 then '+' else '/'
  }

  predicate IsSymbol(c: char) {
    IsAlnum(c) || c == '+' || c == '/'
  }

  function Value(c: char): (v: nat)
    requires IsSymbol(c)
    ensures v < 64
  {
    if 'A' <= c <= 'Z' then (c - 'A') as nat
    else if 'a' <= c <= 'z' then (c - 'a') as nat + 26
    else if '0' <= c <= '9' then (c - '0') as nat + 52
    else if c == '+' then 62 else 63
  }

  // The four six-bit values of three bytes, and back.

  function First(a: nat): (v: nat)
    requires a < 256
    ensures v < 64
  {
    a / 4
  }

  function Second(a: nat, b: nat): (v: nat)
    requires a < 256 && b < 256
    ensures v < 64
  {
    a % 4 * 16 + b / 16
  }

  function Third(b: nat, c: nat): (v: nat)
    requires b < 256 && c < 256
    ensures v < 64
  {
    b % 16 * 4 + c / 64
  }

  function Fourth(c: nat): (v: nat)
    requires c < 256
    ensures v < 64
  {
    c % 64
  }

  function Byte1(i: nat, j: nat): char
    requires i < 64 && j < 64
  {
    (i * 4 + j / 16) as char
  }

  function Byte2(j: nat, k: nat): char
    requires j < 64 && k < 64
  {
    (j % 16 * 16 + k / 4) as char
  }

  function Byte3(k: nat, l: nat): char
    requires k < 64 && l < 64
  {
    (k % 4 * 64 + l) as char
  }

  lemma Bytes(a: nat, b: nat, c: nat)
    requires a < 256 && b < 256 && c < 256
    ensures Byte1(First(a), Second(a, b)) == a as char
    ensures Byte2(Second(a, b), Third(b, c)) == b as char
    ensures Byte3(Third(b, c), Fourth(c)) == c as char
  {
  }

  /** Three bytes become four symbols; one or two left-over bytes are padded. */
  function Encode(s: string): string
    requires Octets(s)
  {
    if s == [] then []
    else
      assert s[0] in s;
      var a := s[0] as int;
      if |s| == 1 then [Symbol(First(a)), Symbol(Second(a, 0)), '=', '=']
      else
        assert s[1] in s;
        var b := s[1] as int;
        if |s| == 2 then [Symbol(First(a)), Symbol(Second(a, b)), Symbol(Third(b, 0)), '=']
        else
          assert s[2] in s && forall x :: x in s[3..] ==> x in s;
          var c := s[2] as int;
          [Symbol(First(a)), Symbol(Second(a, b)), Symbol(Third(b, c)), Symbol(Fourth(c))] + Encode(s[3..])
  }

  /** Line breaks are skipped anywhere. */
  function WithoutBreaks(s: string): string {
    if s == [] then []
    else (if s[0] == '\n' || s[0] == '\r' then [] else [s[0]]) + WithoutBreaks(s[1..])
  }

  /** Padding may only end the text, and must be there. */
  function DecodeQuanta(s: string): Option<string> {
    if s == [] then Some([])
    else if |s| < 4 || !IsSymbol(s[0]) || !IsSymbol(s[1]) then None
    else
      var i, j := Value(s[0]), Value(s[1]);
      if s[2] == '=' then
        if s[3] == '=' && |s| == 4 then Some([Byte1(i, j)]) else None
      else if !IsSymbol(s[2]) then None
      else
        var k := Value(s[2]);
        if s[3] == '=' then
          if |s| == 4 then Some([Byte1(i, j), Byte2(j, k)]) else None
        else if !IsSymbol(s[3]) then None
        else
          var l := Value(s[3]);
          match DecodeQuanta(s[4..])
          case None => None
          case Some(rest) => Some([Byte1(i, j), Byte2(j, k), Byte3(k, l)] + rest)
  }

  function Decode(s: string): Option<string> {
    DecodeQuanta(WithoutBreaks(s))
  }

  /** The decoded text, or the text itself when it is not Base64. */
  function StrOrBase64Encoded(s: string): string {
    match Decode(s) case None => s case Some(d) => d
  }

  // ---------- round trip ----------

  lemma SymbolValue(v: nat)
    requires v < 64
    ensures IsSymbol(Symbol(v)) && Value(Symbol(v)) == v && Symbol(v) != '='
    ensures Symbol(v) == '/' <==> v == 63
  {
  }

  /** The alphabet of table 1 of RFC 4648: three ranges in order, then "+" and "/". */
  lemma Alphabet(v: nat)
    requires v < 64
    ensures Symbol(0) == 'A' && Symbol(26) == 'a' && Symbol(52) == '0' && Symbol(62) == '+' && Symbol(63) == '/'
    ensures v !in {25, 51, 61, 62, 63} ==> Symbol(v + 1) as int == Symbol(v) as int + 1
  {
  }

  /** The symbols of a group are the base-64 digits of its bytes read as one number, and zero bits fill up
      a short last group (section 4 of RFC 4648). */
  lemma GroupDigits(s: string)
    requires Octets(s) && s != []
    ensures var e := Encode(s); var a := s[0] as int;
            && |e| >= 4 && IsSymbol(e[0]) && IsSymbol(e[1])
            && (|s| == 1 ==> Value(e[0]) * 64 + Value(e[1]) == a * 16 && e[2..] == "==")
            && (|s| == 2 ==> IsSymbol(e[2]) && e[3..] == "="
                             && Value(e[0]) * 4096 + Value(e[1]) * 64 + Value(e[2]) == (a * 256 + s[1] as int) * 4)
            && (|s| >= 3 ==> IsSymbol(e[2]) && IsSymbol(e[3]) && Octets(s[3..]) && e[4..] == Encode(s[3..])
                             && Value(e[0]) * 262144 + Value(e[1]) * 4096 + Value(e[2]) * 64 + Value(e[3])
                                == a * 65536 + s[1] as int * 256 + s[2] as int)
  {
    hide Symbol, Value, IsSymbol;
    assert s[0] in s;
    var a := s[0] as int;
    SymbolValue(First(a));
    if |s| == 1 {
      SymbolValue(Second(a, 0));
    } else {
      assert s[1] in s;
      var b := s[1] as int;
      SymbolValue(Second(a, b));
      if |s| == 2 {
        SymbolValue(Third(b, 0));
      } else {
        assert s[2] in s && forall x :: x in s[3..] ==> x in s;
        SymbolValue(Third(b, s[2] as int));
        SymbolValue(Fourth(s[2] as int));
      }
    }
  }

  lemma {:induction false} EncodedSymbols(s: string)
    requires Octets(s)
    ensures forall c :: c in Encode(s) ==> IsSymbol(c) || c == '='
  {
    hide Symbol, IsSymbol, First, Second, Third, Fourth;
    forall v: nat | v < 64 ensures IsSymbol(Symbol(v)) {
      SymbolValue(v);
    }
    if |s| > 2 {
      assert forall x :: x in s[3..] ==> x in s;
      EncodedSymbols(s[3..]);
    }
  }

  lemma {:induction false} NoBreaks(s: string)
    requires '\n' !in s && '\r' !in s
    ensures WithoutBreaks(s) == s
  {
    if s != [] {
      NoBreaks(s[1..]);
      assert [s[0]] + s[1..] == s;
    }
  }

  lemma {:induction false} DecodeEncodedQuanta(s: string)
    requires Octets(s)
    ensures DecodeQuanta(Encode(s)) == Some(s)
  {
    hide Symbol, IsSymbol, Value, First, Second, Third, Fourth, Byte1, Byte2, Byte3;
    forall v: nat | v < 64 ensures IsSymbol(Symbol(v)) && Value(Symbol(v)) == v && Symbol(v) != '=' {
      SymbolValue(v);
    }
    if s != [] {
      assert s[0] in s;
      var a := s[0] as int;
      if |s| == 1 {
        Bytes(a, 0, 0);
        assert s == [s[0]];
      } else {
        assert s[1] in s;
        var b := s[1] as int;
        if |s| == 2 {
          Bytes(a, b, 0);
          assert s == [s[0], s[1]];
        } else {
          assert s[2] in s && forall x :: x in s[3..] ==> x in s;
          Bytes(a, b, s[2] as int);
          DecodeEncodedQuanta(s[3..]);
          assert Encode(s)[4..] == Encode(s[3..]);
          assert s == [s[0], s[1], s[2]] + s[3..];
        }
      }
    }
  }

  lemma DecodeEncode(s: string)
    requires Octets(s)
    ensures Decode(Encode(s)) == Some(s)
  {
    EncodedSymbols(s);
    NoBreaks(Encode(s));
    DecodeEncodedQuanta(s);
  }

  // ---------- slashes ----------

  ghost predicate Ascii(s: string) {
    forall c :: c in s ==> (c as int) < 128
  }

  /** A question mark or DEL in the third place of a group. */
  ghost predicate SlashAt(s: string, k: nat) {
    k < |s| && k % 3 == 2 && (s[k] == '?' || s[k] as int == 127)
  }

  lemma AsciiGroup(a: nat, b: nat, c: nat)
    requires a < 128 && b < 128 && c < 128
    ensures First(a) != 63 && Second(a, b) != 63 && Third(b, c) != 63
    ensures Fourth(c) == 63 <==> c == 63 || c == 127
  {
  }

  /** Encoded ASCII holds a "/" exactly when some third byte of a group is "?" or DEL. */
  lemma {:induction false} SlashExact(s: string)
    requires Ascii(s)
    ensures '/' in Encode(s) <==> exists k :: SlashAt(s, k)
  {
    hide Symbol, First, Second, Third, Fourth;
    forall v: nat | v < 64 ensures Symbol(v) == '/' <==> v == 63 {
      SymbolValue(v);
    }
    if s != [] {
      assert s[0] in s;
      var a := s[0] as int;
      if |s| == 1 {
        AsciiGroup(a, 0, 0);
      } else {
        assert s[1] in s;
        var b := s[1] as int;
        if |s| == 2 {
          AsciiGroup(a, b, 0);
        } else {
          assert s[2] in s && forall x :: x in s[3..] ==> x in s;
          AsciiGroup(a, b, s[2] as int);
          SlashExact(s[3..]);
          SlashShift(s);
        }
      }
    }
  }

  lemma SlashShift(s: string)
    requires |s| > 2
    ensures (exists k :: SlashAt(s, k)) <==> SlashAt(s, 2) || exists k :: SlashAt(s[3..], k)
  {
    if k: nat :| SlashAt(s, k) && k != 2 {
      assert SlashAt(s[3..], k - 3);
    }
    if k: nat :| SlashAt(s[3..], k) {
      assert SlashAt(s, k + 3);
    }
  }
}
