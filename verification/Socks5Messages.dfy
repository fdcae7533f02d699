/**
 * The SOCKS5 server's message parsers and replies (parseAddress, parseAuth and buildReply in
 * src/proxy/server/socks5/index.js; sections 4 to 6 of RFC 1928 and section 2 of RFC 1929).
 */
module Socks5Messages {
  import opened Bytes
  import opened NumberText
  import opened Authentication

  const SOCKS_VERSION: byte := 5
  const CMD_CONNECT: byte := 1
  const ATYP_IPV4: byte := 1
  const ATYP_DOMAIN: byte := 3
  const ATYP_IPV6: byte := 4
  const MIN_REQUEST_SIZE: nat := 10
  const MIN_AUTH_SIZE: nat := 5

  /** Literal addresses are turned into text; a domain stays the bytes it was sent as. */
  datatype HostText = Literal(text: string) | Domain(name: bytes)

  datatype Address = Address(host: HostText, port: nat, atyp: byte)

  function BuildReply(rep: byte): (r: bytes)
    ensures |r| == 10
  {
    [SOCKS_VERSION, rep, 0, ATYP_IPV4, 0, 0, 0, 0, 0, 0]
  }

  function DottedParts(address: bytes): seq<string> {
    seq(|address|, i requires 0 <= i < |address| => Text(address[i], 10))
  }

  function HexParts(address: bytes): seq<string> {
    seq(|address| / 2, i requires 0 <= i < |address| / 2 => Text(U16(address, 2 * i), 16))
  }

  // ---------------------------------------------------------------- the parsers

  function AddressIn(data: bytes): Option<Address> {
    if |data| < MIN_REQUEST_SIZE then None
    else if data[3] == ATYP_IPV4 then
      Some(Address(Literal(Join(DottedParts(data[4..8]), '.')), U16(data, 8), ATYP_IPV4))
    else if data[3] == ATYP_DOMAIN then
      if |data| < 5 + data[4] as nat + 2 then None
      else Some(Address(Domain(data[5..5 + data[4]]), U16(data, 5 + data[4] as nat), ATYP_DOMAIN))
    else if data[3] == ATYP_IPV6 then
      if |data| < 22 then None
      else Some(Address(Literal(Join(HexParts(data[4..20]), ':')), U16(data, 20), ATYP_IPV6))
    else None
  }

  method ParseAddress(data: bytes) returns (r: Option<Address>)
    ensures r == AddressIn(data)
  {
    if |data| < MIN_REQUEST_SIZE {
      return None;
    }
    var atyp := data[3];
    var host;
    var portOffset;
    if atyp == ATYP_IPV4 {
      host := Literal(Text(data[4], 10) + "." + Text(data[5], 10) + "." + Text(data[6], 10) + "." + Text(data[7], 10));
      portOffset := 8;
      ghost var ps := DottedParts(data[4..8]);
      assert ps == [Text(data[4], 10), Text(data[5], 10), Text(data[6], 10), Text(data[7], 10)];
      JoinFour(ps[0], ps[1], ps[2], ps[3], '.');
      assert "." == ['.'];
    } else if atyp == ATYP_DOMAIN {
      var domainLen := data[4] as nat;
      if |data| < 5 + domainLen + 2 {
        return None;
      }
      host := Domain(data[5..5 + domainLen]);
      portOffset := 5 + domainLen;
    } else if atyp == ATYP_IPV6 {
      if |data| < 22 {
        return None;
      }
      var parts: seq<string> := [];
      for i := 0 to 8
        invariant |parts| == i
        invariant parts == HexParts(data[4..20])[..i]
      {
        assert U16(data, 4 + i * 2) == U16(data[4..20], 2 * i);
        parts := parts + [Text(U16(data, 4 + i * 2), 16)];
      }
      assert parts == HexParts(data[4..20]);
      host := Literal(Join(parts, ':'));
      portOffset := 20;
    } else {
      return None;
    }
    return Some(Address(host, U16(data, portOffset), atyp));
  }

  lemma JoinFour(a: string, b: string, c: string, d: string, sep: char)
    ensures Join([a, b, c, d], sep) == a + [sep] + b + [sep] + c + [sep] + d
  {
    assert [a, b, c, d][1..] == [b, c, d] && [b, c, d][1..] == [c, d] && [c, d][1..] == [d];
    assert Join([c, d], sep) == c + [sep] + d;
    assert Join([b, c, d], sep) == b + [sep] + (c + [sep] + d);
  }

  lemma JoinEight(ps: seq<string>)
    requires |ps| == 8
    ensures Join(ps, ':') == (ps[0] + ":" + ps[1] + ":" + ps[2] + ":" + ps[3]) + ":"
                             + (ps[4] + ":" + ps[5] + ":" + ps[6] + ":" + ps[7])
  {
    JoinSplits(ps, 4, ':');
    assert ps[..4] == [ps[0], ps[1], ps[2], ps[3]] && ps[4..] == [ps[4], ps[5], ps[6], ps[7]];
    JoinFour(ps[0], ps[1], ps[2], ps[3], ':');
    JoinFour(ps[4], ps[5], ps[6], ps[7], ':');
    assert ":" == [':'];
  }

  lemma {:induction false} JoinSplits(ps: seq<string>, k: nat, sep: char)
    requires 0 < k < |ps|
    ensures Join(ps, sep) == Join(ps[..k], sep) + [sep] + Join(ps[k..], sep)
    decreases k
  {
    if k > 1 {
      JoinSplits(ps[1..], k - 1, sep);
      assert ps[1..][..k - 1] == ps[..k][1..] && ps[1..][k - 1..] == ps[k..];
      var a, b, c := ps[0] + [sep], Join(ps[..k][1..], sep) + [sep], Join(ps[k..], sep);
      assert a + (b + c) == (a + b) + c;
    } else {
      assert ps[..1] == [ps[0]];
    }
  }

  function AuthIn(data: bytes): Option<Credentials> {
    if |data| < MIN_AUTH_SIZE then None
    else
      var ulen := data[1] as nat;
      if |data| < 3 + ulen then None
      else
        var plen := data[2 + ulen] as nat;
        if |data| < 3 + ulen + plen then None
        else Some(Credentials(data[2..2 + ulen], data[3 + ulen..3 + ulen + plen]))
  }

  // ---------------------------------------------------------------- what a client sends

  datatype Destination = V4(address: bytes) | Named(name: bytes) | V6(address: bytes)

  predicate Sendable(d: Destination) {
    match d
    case V4(a) => |a| == 4
    case Named(n) => |n| < 256
    case V6(a) => |a| == 16
  }

  function Atyp(d: Destination): byte {
    match d case V4(_) => 1 case Named(_) => 3 case V6(_) => 4
  }

  /** What precedes the address: ATYP, and the length of a domain. */
  function Lead(d: Destination): bytes
    requires Sendable(d)
  {
    match d
    case V4(_) => [1]
    case Named(n) => [3, |n|]
    case V6(_) => [4]
  }

  function HostBytes(d: Destination): bytes {
    match d case V4(a) => a case Named(n) => n case V6(a) => a
  }

  /** ATYP, DST.ADDR and DST.PORT. */
  function DestinationBytes(d: Destination, port: nat): bytes
    requires Sendable(d) && port < 0x1_0000
  {
    Lead(d) + HostBytes(d) + [port / 256, port % 256]
  }

  /** The host as the application is given it: four decimal bytes, the name, or eight hexadecimal groups. */
  function HostTextOf(d: Destination): HostText
    requires Sendable(d)
  {
    match d
    case V4(a) =>
      Literal(DecimalOf(a[0]) + "." + DecimalOf(a[1]) + "." + DecimalOf(a[2]) + "." + DecimalOf(a[3]))
    case Named(n) => Domain(n)
    case V6(a) =>
      Literal((Group(a, 0) + ":" + Group(a, 1) + ":" + Group(a, 2) + ":" + Group(a, 3)) + ":"
              + (Group(a, 4) + ":" + Group(a, 5) + ":" + Group(a, 6) + ":" + Group(a, 7)))
  }

  function Group(a: bytes, i: nat): string
    requires |a| == 16 && i < 8
  {
    HexOf(256 * a[2 * i] as int + a[2 * i + 1] as int)
  }

  lemma DottedText(a: bytes)
    requires |a| == 4
    ensures HostTextOf(V4(a)) == Literal(Join(DottedParts(a), '.'))
  {
    var ps := DottedParts(a);
    TextIsDecimal(a[0]);
    TextIsDecimal(a[1]);
    TextIsDecimal(a[2]);
    TextIsDecimal(a[3]);
    assert ps == [DecimalOf(a[0]), DecimalOf(a[1]), DecimalOf(a[2]), DecimalOf(a[3])];
    JoinFour(ps[0], ps[1], ps[2], ps[3], '.');
    assert "." == ['.'];
  }

  lemma HexText(a: bytes)
    requires |a| == 16
    ensures HostTextOf(V6(a)) == Literal(Join(HexParts(a), ':'))
  {
    var ps := HexParts(a);
    forall i | 0 <= i < 8
      ensures ps[i] == Group(a, i)
    {
      TextIsHex(U16(a, 2 * i));
    }
    JoinEight(ps);
  }

  /** The host text as the parser joins it. */
  function JoinedHost(d: Destination): HostText
    requires Sendable(d)
  {
    match d
    case V4(a) => Literal(Join(DottedParts(a), '.'))
    case Named(n) => Domain(n)
    case V6(a) => Literal(Join(HexParts(a), ':'))
  }

  lemma TextOfHost(d: Destination)
    requires Sendable(d)
    ensures HostTextOf(d) == JoinedHost(d)
  {
    match d
    case V4(a) => DottedText(a);
    case Named(_) =>
    case V6(a) => HexText(a);
  }

  function RequestBytes(cmd: byte, d: Destination, port: nat): bytes
    requires Sendable(d) && port < 0x1_0000
  {
    [5, cmd, 0] + DestinationBytes(d, port)
  }

  /** Reading back what was laid out: a lead, a host and a 16-bit port between head and rest. */
  lemma Layout(head: bytes, lead: bytes, host: bytes, port: nat, rest: bytes)
    requires port < 0x1_0000
    ensures var s := head + (lead + host + [port / 256, port % 256]) + rest; var at := |head| + |lead|;
            && |s| == at + |host| + 2 + |rest|
            && (forall i :: 0 <= i < |lead| ==> s[|head| + i] == lead[i])
            && s[at..at + |host|] == host
            && U16(s, at + |host|) == port
  {
    var s := head + (lead + host + [port / 256, port % 256]) + rest;
    var at := |head| + |lead|;
    assert forall i :: 0 <= i < |host| ==> s[at + i] == host[i];
    assert s[at + |host|] == port / 256 && s[at + |host| + 1] == port % 256;
  }

  lemma FieldsRead(head: bytes, d: Destination, port: nat, rest: bytes)
    requires |head| == 3 && Sendable(d) && port < 0x1_0000
    requires |head + DestinationBytes(d, port) + rest| >= 10
    ensures AddressIn(head + DestinationBytes(d, port) + rest) == Some(Address(JoinedHost(d), port, Atyp(d)))
  {
    var s := head + DestinationBytes(d, port) + rest;
    Layout(head, Lead(d), HostBytes(d), port, rest);
    assert s[3 + 0] == Lead(d)[0] == Atyp(d);
    if d.Named? {
      assert s[3 + 1] == Lead(d)[1] == |d.name|;
    }
  }

  /**
   * Decode inverts encode for every destination, port and trailing bytes, if and only if the message
   * reaches the ten-byte minimum; only a domain of under three bytes can miss it.
   */
  lemma AddressRoundTrip(d: Destination, port: nat, rest: bytes)
    requires Sendable(d) && port < 0x1_0000
    ensures AddressIn(RequestBytes(1, d, port) + rest) == Some(Address(HostTextOf(d), port, Atyp(d)))
            <==> !(d.Named? && |d.name| + |rest| < 3)
  {
    var head: bytes := [5, 1, 0];
    var s := head + DestinationBytes(d, port) + rest;
    TextOfHost(d);
    if |s| >= 10 {
      FieldsRead(head, d, port, rest);
    }
  }

  /** Nothing else is accepted: an address comes out only of bytes that encode it. */
  lemma AddressCharacterised(data: bytes, address: Address)
    ensures AddressIn(data) == Some(address) <==>
            |data| >= 10 && exists d: Destination, port: nat, rest: bytes ::
                 Encodes(data, d, port, rest) && address == Address(HostTextOf(d), port, Atyp(d))
  {
    forall d: Destination, port: nat, rest: bytes
      | |data| >= 10 && Encodes(data, d, port, rest) && address == Address(HostTextOf(d), port, Atyp(d))
      ensures AddressIn(data) == Some(address)
    {
      FieldsRead(data[..3], d, port, rest);
      TextOfHost(d);
    }
    if AddressIn(data) == Some(address) {
      var d, rest := AddressSplits(data);
      TextOfHost(d);
    }
  }

  lemma AddressSplits(data: bytes) returns (d: Destination, rest: bytes)
    requires AddressIn(data).Some?
    ensures var a := AddressIn(data).value;
            Encodes(data, d, a.port, rest) && a == Address(JoinedHost(d), a.port, Atyp(d))
  {
    var port := AddressIn(data).value.port;
    var at, end := if data[3] == ATYP_DOMAIN then 5 else 4,
                   if data[3] == ATYP_IPV4 then 8 else if data[3] == ATYP_IPV6 then 20 else 5 + data[4] as nat;
    var host := data[at..end];
    d := if data[3] == ATYP_IPV4 then V4(host) else if data[3] == ATYP_IPV6 then V6(host) else Named(host);
    rest := data[end + 2..];
    FieldOfU16(data, end);
    assert Lead(d) == data[3..at];
    Pieces(data, 3, at, end);
  }

  lemma Pieces(data: bytes, a: nat, b: nat, c: nat)
    requires a <= b <= c && c + 2 <= |data|
    ensures data == data[..a] + (data[a..b] + data[b..c] + data[c..c + 2]) + data[c + 2..]
  {
  }

  ghost predicate Encodes(data: bytes, d: Destination, port: nat, rest: bytes) {
    |data| >= 3 && Sendable(d) && port < 0x1_0000 && data == data[..3] + DestinationBytes(d, port) + rest
  }

  lemma U16Injective(a: bytes, b: bytes, at: nat)
    requires at + 2 <= |a| && at + 2 <= |b| && U16(a, at) == U16(b, at)
    ensures a[at] == b[at] && a[at + 1] == b[at + 1]
  {
  }

  lemma DottedInjective(a: bytes, b: bytes)
    requires |a| == |b| == 4 && Join(DottedParts(a), '.') == Join(DottedParts(b), '.')
    ensures a == b
  {
    JoinInjective(DottedParts(a), DottedParts(b), '.');
    forall i | 0 <= i < 4
      ensures a[i] == b[i]
    {
      assert DottedParts(a)[i] == DottedParts(b)[i];
      TextInjective(a[i], b[i], 10);
    }
  }

  lemma HexInjective(a: bytes, b: bytes)
    requires |a| == |b| == 16 && Join(HexParts(a), ':') == Join(HexParts(b), ':')
    ensures a == b
  {
    JoinInjective(HexParts(a), HexParts(b), ':');
    forall i | 0 <= i < 8
      ensures a[2 * i] == b[2 * i] && a[2 * i + 1] == b[2 * i + 1]
    {
      assert HexParts(a)[i] == HexParts(b)[i];
      TextInjective(U16(a, 2 * i), U16(b, 2 * i), 16);
      U16Injective(a, b, 2 * i);
    }
    forall k | 0 <= k < 16
      ensures a[k] == b[k]
    {
      var i := k / 2;
      assert k == 2 * i || k == 2 * i + 1;
    }
  }

  /** The host and the address type given to the application determine the bytes the client sent. */
  lemma HostTextInjective(d: Destination, d': Destination)
    requires Sendable(d) && Sendable(d')
    ensures HostTextOf(d) == HostTextOf(d') && Atyp(d) == Atyp(d') <==> d == d'
  {
    if HostTextOf(d) == HostTextOf(d') && Atyp(d) == Atyp(d') {
      TextOfHost(d);
      TextOfHost(d');
      match d
      case V4(a) => DottedInjective(a, d'.address);
      case Named(_) =>
      case V6(a) => HexInjective(a, d'.address);
    }
  }

  function AuthBytes(version: byte, c: Credentials): bytes
    requires |c.username| < 256 && |c.password| < 256
  {
    [version, |c.username|] + c.username + ([|c.password|] + c.password)
  }

  lemma AuthRead(version: byte, c: Credentials, rest: bytes)
    requires |c.username| < 256 && |c.password| < 256
    requires |AuthBytes(version, c) + rest| >= 5
    ensures AuthIn(AuthBytes(version, c) + rest) == Some(c)
  {
    var s := AuthBytes(version, c) + rest;
    var u, p := |c.username|, |c.password|;
    assert s[1] == u && s[2 + u] == p;
    assert forall i :: 0 <= i < u ==> s[2 + i] == c.username[i];
    assert forall i :: 0 <= i < p ==> s[3 + u + i] == c.password[i];
    assert s[2..2 + u] == c.username;
    assert s[3 + u..3 + u + p] == c.password;
  }

  /** Username and password come back exactly, if and only if the message has the minimum five bytes. */
  lemma AuthRoundTrip(c: Credentials, rest: bytes)
    requires |c.username| < 256 && |c.password| < 256
    ensures AuthIn(AuthBytes(1, c) + rest) == Some(c) <==> |c.username| + |c.password| + |rest| >= 2
  {
    if |c.username| + |c.password| + |rest| >= 2 {
      AuthRead(1, c, rest);
    }
  }

  ghost predicate EncodesAuth(data: bytes, c: Credentials, rest: bytes) {
    |c.username| < 256 && |c.password| < 256 && data != [] && data == AuthBytes(data[0], c) + rest
  }

  /** The version byte is not looked at; otherwise only an encoding of credentials yields them. */
  lemma AuthCharacterised(data: bytes, c: Credentials)
    ensures AuthIn(data) == Some(c) <==> |data| >= 5 && exists rest: bytes :: EncodesAuth(data, c, rest)
  {
    forall rest: bytes | |data| >= 5 && EncodesAuth(data, c, rest)
      ensures AuthIn(data) == Some(c)
    {
      AuthRead(data[0], c, rest);
    }
    if AuthIn(data) == Some(c) {
      AuthSplits(data);
    }
  }

  lemma AuthSplits(data: bytes)
    requires AuthIn(data).Some?
    ensures var c := AuthIn(data).value; EncodesAuth(data, c, data[3 + |c.username| + |c.password|..])
  {
    var c := AuthIn(data).value;
    var u, n := 2 + |c.username|, 3 + |c.username| + |c.password|;
    assert data[..2] == [data[0], |c.username|];
    assert data[u..n] == [|c.password|] + c.password;
    assert data[..n] == data[..2] + data[2..u] + data[u..n];
    assert data == data[..n] + data[n..];
  }
}
