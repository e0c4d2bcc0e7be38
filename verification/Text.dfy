/** Go's string helpers, as far as the link code uses them (packages strings and strconv). */
module Text {

  /** strings.Cut at the first `sep`; the flag says whether there was one. */
  function Cut(s: string, sep: char): (r: (string, string, bool))
    ensures |r.0| + |r.1| <= |s|
  {
    if s == [] then ([], [], false)
    else if s[0] == sep then ([], s[1..], true)
    else
      var (before, after, found) := Cut(s[1..], sep);
      ([s[0]] + before, after, found)
  }

  /** Cut at the last `sep`; without one, everything is in the second part. */
  function CutLast(s: string, sep: char): (r: (string, string, bool))
    ensures |r.0| + |r.1| <= |s|
  {
    if s == [] then ([], [], false)
    else
      var (before, after, found) := CutLast(s[1..], sep);
      if found then ([s[0]] + before, after, true)
      else if s[0] == sep then ([], s[1..], true)
      else ([], s, false)
  }

  lemma {:induction false} CutAt(a: string, sep: char, b: string)
    requires sep !in a
    ensures Cut(a + [sep] + b, sep) == (a, b, true)
  {
    var s := a + [sep] + b;
    if a == [] {
      assert s[1..] == b;
    } else {
      assert s[1..] == a[1..] + [sep] + b;
      CutAt(a[1..], sep, b);
      assert [a[0]] + a[1..] == a;
    }
  }

  lemma {:induction false} CutNone(a: string, sep: char)
    requires sep !in a
    ensures Cut(a, sep) == (a, [], false)
  {
    if a != [] {
      CutNone(a[1..], sep);
      assert [a[0]] + a[1..] == a;
    }
  }

  /** The pieces of a cut make up the text. */
  lemma {:induction false} CutPieces(s: string, sep: char)
    ensures var (before, after, found) := Cut(s, sep);
            && sep !in before && (found <==> sep in s)
            && s == before + (if found then [sep] + after else [])
            && (!found ==> after == [])
  {
    if s != [] && s[0] != sep {
      CutPieces(s[1..], sep);
    }
  }

  /** A separator in the first text decides the cut. */
  lemma {:induction false} CutInside(a: string, b: string, sep: char)
    requires sep in a
    ensures Cut(a + b, sep).0 == Cut(a, sep).0 && |Cut(a, sep).0| < |a|
  {
    if a[0] != sep {
      assert (a + b)[1..] == a[1..] + b;
      CutInside(a[1..], b, sep);
    }
  }

  lemma {:induction false} CutBeyond(a: string, b: string, sep: char)
    requires sep !in a
    ensures Cut(a + b, sep).0 == a + Cut(b, sep).0
  {
    if a == [] {
      assert a + b == b;
    } else {
      assert (a + b)[1..] == a[1..] + b;
      CutBeyond(a[1..], b, sep);
    }
  }

  lemma CutAppend(a: string, b: string, sep: char)
    ensures sep in a ==> |Cut(a + b, sep).0| < |a| && Cut(a + b, sep).0 == Cut(a, sep).0
    ensures sep !in a ==> Cut(a + b, sep).0 == a + Cut(b, sep).0
    ensures sep !in a && sep !in b ==> Cut(a + b, sep).0 == a + b
  {
    hide Cut;
    if sep in a {
      CutInside(a, b, sep);
    } else {
      CutBeyond(a, b, sep);
      if sep !in b {
        CutNone(b, sep);
      }
    }
  }

  lemma {:induction false} CutFinds(a: string, sep: char)
    requires sep in a
    ensures Cut(a, sep).2 && |Cut(a, sep).0| + |Cut(a, sep).1| + 1 == |a|
  {
    if a[0] != sep {
      CutFinds(a[1..], sep);
    }
  }

  lemma {:induction false} CutLastNone(a: string, sep: char)
    requires sep !in a
    ensures CutLast(a, sep) == ([], a, false)
  {
    if a != [] {
      CutLastNone(a[1..], sep);
    }
  }

  lemma {:induction false} CutLastAt(a: string, sep: char, b: string)
    requires sep !in b
    ensures CutLast(a + [sep] + b, sep) == (a, b, true)
  {
    var s := a + [sep] + b;
    if a == [] {
      assert s[1..] == b;
      CutLastNone(b, sep);
    } else {
      assert s[1..] == a[1..] + [sep] + b;
      CutLastAt(a[1..], sep, b);
      assert [a[0]] + a[1..] == a;
    }
  }

  function Join(items: seq<string>, sep: char): string {
    if items == [] then []
    else if |items| == 1 then items[0]
    else items[0] + [sep] + Join(items[1..], sep)
  }

  /** strings.Split never gives an empty list. */
  function Split(s: string, sep: char): (r: seq<string>)
    ensures |r| > 0
    decreases |s|
  {
    var (before, after, found) := Cut(s, sep);
    if !found then [s]
    else
      assert |after| < |s| by { CutShorter(s, sep); }
      [before] + Split(after, sep)
  }

  lemma CutShorter(s: string, sep: char)
    requires Cut(s, sep).2
    ensures |Cut(s, sep).1| < |s|
  {
  }

  lemma {:induction false} SplitJoin(items: seq<string>, sep: char)
    requires items != [] && forall x :: x in items ==> sep !in x
    ensures Split(Join(items, sep), sep) == items
  {
    assert items[0] in items;
    if |items| == 1 {
      CutNone(items[0], sep);
    } else {
      CutAt(items[0], sep, Join(items[1..], sep));
      SplitJoin(items[1..], sep);
      assert [items[0]] + items[1..] == items;
    }
  }

  lemma {:induction false} JoinSplit(s: string, sep: char)
    ensures Join(Split(s, sep), sep) == s
    decreases |s|
  {
    CutPieces(s, sep);
    var (before, after, found) := Cut(s, sep);
    if found {
      CutShorter(s, sep);
      JoinSplit(after, sep);
      assert Split(s, sep)[1..] == Split(after, sep);
    }
  }

  lemma {:induction false} JoinChars(items: seq<string>, sep: char)
    ensures forall c :: c in Join(items, sep) ==> c == sep || exists x :: x in items && c in x
  {
    if |items| == 1 {
      assert items[0] in items;
    } else if items != [] {
      JoinChars(items[1..], sep);
      assert items[0] in items;
      forall c | c in Join(items, sep) ensures c == sep || exists x :: x in items && c in x {
        if c in Join(items[1..], sep) && c != sep {
          var x :| x in items[1..] && c in x;
          assert x in items;
        }
      }
    }
  }

  function ReplaceChar(s: string, from: char, to: char): string {
    if s == [] then [] else [if s[0] == from then to else s[0]] + ReplaceChar(s[1..], from, to)
  }

  lemma {:induction false} ReplaceAppend(a: string, b: string, from: char, to: char)
    ensures ReplaceChar(a + b, from, to) == ReplaceChar(a, from, to) + ReplaceChar(b, from, to)
  {
    if a == [] {
      assert a + b == b;
    } else {
      assert (a + b)[1..] == a[1..] + b;
      ReplaceAppend(a[1..], b, from, to);
    }
  }

  function ReplaceEach(items: seq<string>, from: char, to: char): (r: seq<string>)
    ensures |r| == |items|
  {
    if items == [] then [] else [ReplaceChar(items[0], from, to)] + ReplaceEach(items[1..], from, to)
  }

  lemma {:induction false} ReplaceJoin(items: seq<string>, sep: char, from: char, to: char)
    requires sep != from
    ensures ReplaceChar(Join(items, sep), from, to) == Join(ReplaceEach(items, from, to), sep)
  {
    if |items| == 1 {
      assert items[1..] == [];
    } else if items != [] {
      var rest := Join(items[1..], sep);
      ReplaceAppend(items[0] + [sep], rest, from, to);
      ReplaceAppend(items[0], [sep], from, to);
      ReplaceJoin(items[1..], sep, from, to);
      var replaced := ReplaceEach(items, from, to);
      assert replaced[1..] == ReplaceEach(items[1..], from, to);
      assert ReplaceChar([sep], from, to) == [sep];
      assert items[0] + [sep] + rest == Join(items, sep);
    }
  }

  lemma {:induction false} ReplaceChars(s: string, from: char, to: char)
    ensures forall c :: c in ReplaceChar(s, from, to) ==> c in s || c == to
    ensures |ReplaceChar(s, from, to)| == |s|
  {
    if s != [] {
      ReplaceChars(s[1..], from, to);
    }
  }

  lemma {:induction false} ReplaceEachChars(items: seq<string>, from: char, to: char, sep: char)
    requires sep != to && forall x :: x in items ==> sep !in x
    ensures forall x :: x in ReplaceEach(items, from, to) ==> sep !in x
  {
    if items != [] {
      assert items[0] in items;
      ReplaceChars(items[0], from, to);
      ReplaceEachChars(items[1..], from, to, sep);
    }
  }

  // ---------- numbers ----------

  const MAX_INT: int := 0x7fff_ffff_ffff_ffff

  function Digit(d: nat): char
    requires d < 10
  {
    '0' + d as char
  }

  predicate IsDigit(c: char) {
    '0' <= c <= '9'
  }

  /** fmt's %d, and %.0f of a whole number. */
  function Itoa(n: nat): (r: string)
    ensures r != [] && forall c :: c in r ==> IsDigit(c)
  {
    if n < 10 then [Digit(n)] else Itoa(n / 10) + [Digit(n % 10)]
  }

  function Digits(s: string): nat
    requires forall c :: c in s ==> IsDigit(c)
  {
    if s == [] then 0
    else
      var last := s[|s| - 1];
      assert last in s && IsDigit(last);
      Digits(s[..|s| - 1]) * 10 + (last as int - '0' as int)
  }

  /** strconv.Atoi with the error dropped: 0 for bad syntax, the nearest bound out of range. */
  function Atoi(s: string): int {
    var negative := s != [] && s[0] == '-';
    var digits := if s != [] && (s[0] == '-' || s[0] == '+') then s[1..] else s;
    if digits == [] || exists c :: c in digits && !IsDigit(c) then 0
    else if negative then (if Digits(digits) > MAX_INT + 1 then -MAX_INT - 1 else -(Digits(digits) as int))
    else (if Digits(digits) > MAX_INT then MAX_INT else Digits(digits))
  }

  lemma {:induction false} DigitsItoa(n: nat)
    ensures Digits(Itoa(n)) == n
  {
    var s := Itoa(n);
    if n >= 10 {
      DigitsItoa(n / 10);
      assert s[..|s| - 1] == Itoa(n / 10);
    } else {
      assert s[..|s| - 1] == [];
    }
  }

  lemma AtoiItoa(n: nat)
    requires n <= MAX_INT
    ensures Atoi(Itoa(n)) == n
  {
    DigitsItoa(n);
    assert Itoa(n)[0] in Itoa(n);
  }

  /** A sign is read, and a number out of range becomes the nearest 64-bit one. */
  lemma AtoiSigned(n: nat)
    ensures Atoi(Itoa(n)) == if n <= 0x7fff_ffff_ffff_ffff then n else 0x7fff_ffff_ffff_ffff
    ensures Atoi("+" + Itoa(n)) == Atoi(Itoa(n))
    ensures Atoi("-" + Itoa(n)) == if n <= 0x8000_0000_0000_0000 then 0 - n else -0x8000_0000_0000_0000
  {
    hide Itoa, Digits;
    DigitsItoa(n);
    var t := Itoa(n);
    assert t[0] in t && IsDigit(t[0]);
    assert ("+" + t)[1..] == t && ("-" + t)[1..] == t;
  }

  /** Anything that is not a number is 0. */
  lemma AtoiRefuses(s: string, i: nat)
    ensures Atoi("") == 0 && Atoi("+") == 0 && Atoi("-") == 0
    ensures i < |s| && !IsDigit(s[i]) && (i > 0 || (s[i] != '+' && s[i] != '-')) ==> Atoi(s) == 0
  {
    hide Digits;
    if i < |s| && !IsDigit(s[i]) && (i > 0 || (s[i] != '+' && s[i] != '-')) {
      var digits := if s[0] == '-' || s[0] == '+' then s[1..] else s;
      assert s[i] in digits by {
        assert i > 0 ==> s[1..][i - 1] == s[i];
      }
    }
  }
}
