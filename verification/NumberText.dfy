/** Numbers and joined lists as JavaScript prints them: toString(base) and join(separator). */
module NumberText {

  function Digit(d: nat): (c: char)
    requires d < 16
    ensures IsDigit(c) && DigitValue(c) == d
  {
    if d < 10 then (48 + d) as char else (87 + d) as char
  }

  predicate IsDigit(c: char) {
    '0' <= c <= '9' || 'a' <= c <= 'f'
  }

  function DigitValue(c: char): nat {
    if '0' <= c <= '9' then c as nat - 48 else if 'a' <= c <= 'f' then c as nat - 87 else 0
  }

  predicate Base(base: nat) {
    base == 10 || base == 16
  }

  /** n.toString(base), without leading zeros. */
  function Text(n: nat, base: nat): (s: string)
    requires Base(base)
    ensures forall i :: 0 <= i < |s| ==> IsDigit(s[i])
    decreases n
  {
    if n < base then [Digit(n)]
    else if base == 10 then Text(n / 10, 10) + [Digit(n % 10)]
    else Text(n / 16, 16) + [Digit(n % 16)]
  }

  /** A byte in decimal, digit by digit. */
  function DecimalOf(n: nat): string
    requires n < 256
  {
    var d := "0123456789";
    if n < 10 then [d[n]]
    else if n < 100 then [d[n / 10], d[n % 10]]
    else [d[n / 100], d[n / 10 % 10], d[n % 10]]
  }

  /** A 16-bit group in hexadecimal, digit by digit. */
  function HexOf(n: nat): string
    requires n < 0x1_0000
  {
    var d := "0123456789abcdef";
    if n < 0x10 then [d[n]]
    else if n < 0x100 then [d[n / 0x10], d[n % 0x10]]
    else if n < 0x1000 then [d[n / 0x100], d[n / 0x10 % 0x10], d[n % 0x10]]
    else [d[n / 0x1000], d[n / 0x100 % 0x10], d[n / 0x10 % 0x10], d[n % 0x10]]
  }

  lemma DigitIsLiteral(d: nat)
    requires d < 16
    ensures Digit(d) == "0123456789abcdef"[d]
    ensures d < 10 ==> Digit(d) == "0123456789"[d]
  {
    if d < 10 {
      assert d == 0 || d == 1 || d == 2 || d == 3 || d == 4 || d == 5 || d == 6 || d == 7 || d == 8 || d == 9;
    } else {
      assert d == 10 || d == 11 || d == 12 || d == 13 || d == 14 || d == 15;
    }
  }

  lemma {:induction false} TextIsDecimal(n: nat)
    requires n < 256
    ensures Text(n, 10) == DecimalOf(n)
  {
    DigitIsLiteral(n % 10);
    if n < 10 {
    } else if n < 100 {
      DigitIsLiteral(n / 10);
    } else {
      TextIsDecimal(n / 10);
      assert n / 10 / 10 == n / 100;
    }
  }

  lemma HexShift(n: nat)
    requires 16 <= n < 0x1_0000
    ensures HexOf(n) == HexOf(n / 16) + ["0123456789abcdef"[n % 16]]
  {
    assert n / 16 / 16 == n / 0x100 && n / 16 / 0x100 == n / 0x1000;
  }

  lemma {:induction false} TextIsHex(n: nat)
    requires n < 0x1_0000
    ensures Text(n, 16) == HexOf(n)
  {
    DigitIsLiteral(n % 16);
    if n >= 16 {
      TextIsHex(n / 16);
      HexShift(n);
    }
  }

  function Value(s: string, base: nat): nat {
    if s == [] then 0 else Value(s[..|s| - 1], base) * base + DigitValue(s[|s| - 1])
  }

  lemma {:induction false} ValueOfText(n: nat, base: nat)
    requires Base(base)
    ensures Value(Text(n, base), base) == n
    decreases n
  {
    var s := Text(n, base);
    if n < base {
      assert s[..0] == [];
    } else if base == 10 {
      ValueOfText(n / 10, 10);
      assert s[..|s| - 1] == Text(n / 10, 10);
    } else {
      ValueOfText(n / 16, 16);
      assert s[..|s| - 1] == Text(n / 16, 16);
    }
  }

  lemma TextInjective(m: nat, n: nat, base: nat)
    requires Base(base)
    ensures Text(m, base) == Text(n, base) <==> m == n
  {
    ValueOfText(m, base);
    ValueOfText(n, base);
  }

  function Join(parts: seq<string>, separator: char): string
    requires parts != []
  {
    if |parts| == 1 then parts[0] else parts[0] + [separator] + Join(parts[1..], separator)
  }

  /** The first part reaches exactly to the first separator, or to the end. */
  lemma FirstPart(parts: seq<string>, separator: char)
    requires parts != [] && separator !in parts[0]
    ensures var all, n := Join(parts, separator), |parts[0]|;
            && n <= |all| && all[..n] == parts[0] && separator !in all[..n]
            && (|parts| == 1 ==> n == |all|)
            && (|parts| > 1 ==> n < |all| && all[n] == separator && all[n + 1..] == Join(parts[1..], separator))
  {
  }

  lemma {:induction false} JoinInjective(ps: seq<string>, qs: seq<string>, separator: char)
    requires ps != [] && qs != []
    requires forall i :: 0 <= i < |ps| ==> separator !in ps[i]
    requires forall i :: 0 <= i < |qs| ==> separator !in qs[i]
    requires Join(ps, separator) == Join(qs, separator)
    ensures ps == qs
    decreases |ps|
  {
    var all, n, m := Join(ps, separator), |ps[0]|, |qs[0]|;
    FirstPart(ps, separator);
    FirstPart(qs, separator);
    SameCut(all, n, m, separator);
    if |ps| > 1 && |qs| > 1 {
      JoinInjective(ps[1..], qs[1..], separator);
      assert ps == [ps[0]] + ps[1..] && qs == [qs[0]] + qs[1..];
    }
  }

  lemma SameCut(all: string, n: nat, m: nat, separator: char)
    requires n <= |all| && m <= |all|
    requires separator !in all[..n] && separator !in all[..m]
    requires n < |all| ==> all[n] == separator
    requires m < |all| ==> all[m] == separator
    ensures n == m
  {
  }
}
