/** Base64 as in section 4 of RFC 4648: Buffer.toString("base64") and Buffer.from(text, "base64"). */
module Base64 {
  import opened Bytes

  type sextet = n: nat | n < 64

  function Symbol(n: sextet): (c: char)
    ensures SymbolValue(c) == Some(n)
  {
    if n < 26 then (65 + n as int) as char
    else if n < 52 then (71 + n as int) as char
    else if n < 62 then (n as int - 4) as char
    else if n == 62 then '+'
    else '/'
  }

  function SymbolValue(c: char): Option<sextet> {
    if 'A' <= c <= 'Z' then Some(c as int - 65)
    else if 'a' <= c <= 'z' then Some(c as int - 71)
    else if '0' <= c <= '9' then Some(c as int + 4)
    else if c == '+' then Some(62)
    else if c == '/' then Some(63)
    else None
  }

  /** The bytes' bits, regrouped by six; the last group is filled up with zeros. */
  function Sextets(s: bytes): seq<sextet> {
    if s == [] then []
    else if |s| == 1 then [s[0] / 4, s[0] % 4 * 16]
    else if |s| == 2 then [s[0] / 4, s[0] % 4 * 16 + s[1] as int / 16, s[1] % 16 * 4]
    else
      [s[0] / 4, s[0] % 4 * 16 + s[1] as int / 16, s[1] % 16 * 4 + s[2] as int / 64, s[2] % 64] + Sextets(s[3..])
  }

  function FromSextets(q: seq<sextet>): bytes {
    if |q| < 2 then []
    else if |q| == 2 then [q[0] as int * 4 + q[1] / 16]
    else if |q| == 3 then [q[0] as int * 4 + q[1] / 16, q[1] as int % 16 * 16 + q[2] / 4]
    else
      [q[0] as int * 4 + q[1] / 16, q[1] as int % 16 * 16 + q[2] / 4, q[2] as int % 4 * 64 + q[3]] + FromSextets(q[4..])
  }

  function Symbols(q: seq<sextet>): (t: string)
    ensures |t| == |q|
  {
    seq(|q|, i requires 0 <= i < |q| => Symbol(q[i]))
  }

  function Padding(s: bytes): string {
    if |s| % 3 == 1 then "==" else if |s| % 3 == 2 then "=" else ""
  }

  function Encode(s: bytes): string {
    Symbols(Sextets(s)) + Padding(s)
  }

  /** Table 1 of RFC 4648, section 4. */
  function Letter(n: nat): char
    requires n < 64
  {
    if n < 26 then "ABCDEFGHIJKLMNOPQRSTUVWXYZ"[n]
    else if n < 52 then "abcdefghijklmnopqrstuvwxyz"[n - 26]
    else if n < 62 then "0123456789"[n - 52]
    else "+/"[n - 62]
  }

  /** A group of three bytes as one 24-bit number; missing bytes count as zero. */
  function Bits(s: bytes): (n: nat)
    requires s != []
    ensures n < 0x100_0000
  {
    s[0] as int * 0x1_0000 + (if |s| > 1 then s[1] as int * 256 else 0) + (if |s| > 2 then s[2] as int else 0)
  }

  /** The standard's encoding: four letters a group, and '=' for each byte that is missing. */
  function Standard(s: bytes): string {
    if s == [] then "" else if |s| <= 3 then Group(s) else Group(s[..3]) + Standard(s[3..])
  }

  function Group(s: bytes): string
    requires s != []
  {
    var n := Bits(s);
    [Letter(n / 0x4_0000), Letter(n / 0x1000 % 64),
     if |s| > 1 then Letter(n / 64 % 64) else '=', if |s| > 2 then Letter(n % 64) else '=']
  }

  /** The symbols up to the first character that is none, such as the padding. */
  function ReadSymbols(t: string): seq<sextet> {
    if t == [] || SymbolValue(t[0]).None? then [] else [SymbolValue(t[0]).value] + ReadSymbols(t[1..])
  }

  function Decode(t: string): bytes {
    FromSextets(ReadSymbols(t))
  }

  lemma {:induction false} SextetsReadBack(s: bytes)
    ensures FromSextets(Sextets(s)) == s
    decreases |s|
  {
    if |s| >= 3 {
      SextetsReadBack(s[3..]);
      var q := Sextets(s);
      assert q[4..] == Sextets(s[3..]);
      assert [s[0], s[1], s[2]] + s[3..] == s;
    }
  }

  lemma {:induction false} SymbolsReadBack(q: seq<sextet>, padding: string)
    requires padding != [] ==> SymbolValue(padding[0]).None?
    ensures ReadSymbols(Symbols(q) + padding) == q
    decreases |q|
  {
    var t := Symbols(q) + padding;
    if q == [] {
      assert t == padding;
    } else {
      SymbolsReadBack(q[1..], padding);
      assert t[1..] == Symbols(q[1..]) + padding;
    }
  }

  lemma SymbolIsLetter(n: sextet)
    ensures Symbol(n) == Letter(n)
  {
    if n < 26 {
      assert n == 0 || n == 1 || n == 2 || n == 3 || n == 4 || n == 5 || n == 6 || n == 7 || n == 8 || n == 9 ||
             n == 10 || n == 11 || n == 12 || n == 13 || n == 14 || n == 15 || n == 16 || n == 17 || n == 18 ||
             n == 19 || n == 20 || n == 21 || n == 22 || n == 23 || n == 24 || n == 25;
    } else if n < 52 {
      assert n == 26 || n == 27 || n == 28 || n == 29 || n == 30 || n == 31 || n == 32 || n == 33 || n == 34 ||
             n == 35 || n == 36 || n == 37 || n == 38 || n == 39 || n == 40 || n == 41 || n == 42 || n == 43 ||
             n == 44 || n == 45 || n == 46 || n == 47 || n == 48 || n == 49 || n == 50 || n == 51;
    } else {
      assert n == 52 || n == 53 || n == 54 || n == 55 || n == 56 || n == 57 || n == 58 || n == 59 || n == 60 ||
             n == 61 || n == 62 || n == 63;
    }
  }

  lemma SymbolsAppend(p: seq<sextet>, q: seq<sextet>)
    ensures Symbols(p + q) == Symbols(p) + Symbols(q)
  {
  }

  lemma EncodeGroup(s: bytes)
    requires |s| > 3
    ensures Encode(s) == Encode(s[..3]) + Encode(s[3..])
  {
    var head := Sextets(s[..3]);
    assert s[..3][3..] == [] && Sextets(s[..3][3..]) == [];
    assert Sextets(s) == head + Sextets(s[3..]);
    SymbolsAppend(head, Sextets(s[3..]));
    var a, b, c := Symbols(head), Symbols(Sextets(s[3..])), Padding(s);
    assert (a + b) + c == a + (b + c);
    assert Padding(s[..3]) == "" && a + "" == a;
  }

  lemma Shifted(a: nat, b: nat, c: nat, n: nat)
    requires b < 256 && c < 256 && n == a * 0x1_0000 + b * 256 + c
    ensures n / 0x4_0000 == a / 4 && n / 0x1000 == a * 16 + b / 16
    ensures n / 64 == a * 1024 + b * 4 + c / 64 && n % 64 == c % 64
  {
  }

  lemma LowBits(a: nat, b: nat, c: nat)
    requires b < 256 && c < 256
    ensures (a * 16 + b / 16) % 64 == a % 4 * 16 + b / 16
    ensures (a * 1024 + b * 4 + c / 64) % 64 == b % 16 * 4 + c / 64
  {
  }

  /** The four groups of six bits. */
  lemma GroupBits(a: nat, b: nat, c: nat, n: nat)
    requires b < 256 && c < 256 && n == a * 0x1_0000 + b * 256 + c
    ensures n / 0x4_0000 == a / 4 && n / 0x1000 % 64 == a % 4 * 16 + b / 16
    ensures n / 64 % 64 == b % 16 * 4 + c / 64 && n % 64 == c % 64
  {
    Shifted(a, b, c, n);
    LowBits(a, b, c);
  }

  function At(s: bytes, i: nat): nat {
    if i < |s| then s[i] else 0
  }

  lemma BitsAt(s: bytes)
    requires s != []
    ensures Bits(s) == At(s, 0) * 0x1_0000 + At(s, 1) * 256 + At(s, 2)
  {
  }

  lemma SextetsAt(s: bytes, q: seq<sextet>)
    requires 0 < |s| <= 3 && q == Sextets(s)
    ensures |q| == |s| + 1 && q[0] == At(s, 0) / 4 && q[1] == At(s, 0) % 4 * 16 + At(s, 1) / 16
    ensures |s| > 1 ==> q[2] == At(s, 1) % 16 * 4 + At(s, 2) / 64
    ensures |s| > 2 ==> q[3] == At(s, 2) % 64
  {
    if |s| == 3 {
      assert Sextets(s[3..]) == [];
    }
  }

  lemma GroupSextets(s: bytes, q: seq<sextet>, n: nat)
    requires 0 < |s| <= 3 && q == Sextets(s) && n == Bits(s)
    ensures |q| == |s| + 1 && q[0] == n / 0x4_0000 && q[1] == n / 0x1000 % 64
    ensures |s| > 1 ==> q[2] == n / 64 % 64
    ensures |s| > 2 ==> q[3] == n % 64
  {
    BitsAt(s);
    SextetsAt(s, q);
    GroupBits(At(s, 0), At(s, 1), At(s, 2), n);
  }

  lemma EncodeOneGroup(s: bytes)
    requires 0 < |s| <= 3
    ensures Encode(s) == Group(s)
  {
    var q, n := Sextets(s), Bits(s);
    GroupSextets(s, q, n);
    LettersOf(s, q, n);
  }

  lemma LettersOf(s: bytes, q: seq<sextet>, n: nat)
    requires 0 < |s| <= 3 && n == Bits(s)
    requires |q| == |s| + 1 && q[0] == n / 0x4_0000 && q[1] == n / 0x1000 % 64
    requires |s| > 1 ==> q[2] == n / 64 % 64
    requires |s| > 2 ==> q[3] == n % 64
    ensures Symbols(q) + Padding(s) == Group(s)
  {
    SymbolIsLetter(q[0]);
    SymbolIsLetter(q[1]);
    if |s| > 1 {
      SymbolIsLetter(q[2]);
    }
    if |s| > 2 {
      SymbolIsLetter(q[3]);
    }
  }

  /** What is encoded is the standard's encoding, alphabet and padding included. */
  lemma {:induction false} EncodeIsStandard(s: bytes)
    ensures Encode(s) == Standard(s)
    decreases |s|
  {
    if |s| > 3 {
      EncodeGroup(s);
      EncodeOneGroup(s[..3]);
      EncodeIsStandard(s[3..]);
    } else if s != [] {
      EncodeOneGroup(s);
    }
  }

  /** Decoding inverts encoding, for every length and hence every padding. */
  lemma DecodeInvertsEncode(s: bytes)
    ensures Decode(Encode(s)) == s
  {
    SymbolsReadBack(Sextets(s), Padding(s));
    SextetsReadBack(s);
  }

  /** An encoding has no space in it, so splitting a header at its spaces leaves it whole. */
  lemma EncodeHasNoSpace(s: bytes)
    ensures ' ' !in Encode(s)
  {
    var q := Sextets(s);
    forall i | 0 <= i < |Encode(s)|
      ensures Encode(s)[i] != ' '
    {
      if i < |q| {
        assert SymbolValue(Symbol(q[i])) != SymbolValue(' ');
      }
    }
  }
}
