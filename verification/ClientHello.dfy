/**
 * The walk from a ClientHello message to its host name (parseServerNameList and parseClientHello
 * in src/utils/sni/index.js; section 4.1.2 of RFC 8446 and section 3 of RFC 6066).
 */
module ClientHello {
  import opened Bytes

  const HANDSHAKE_CLIENT_HELLO: byte := 1
  const EXTENSION_SERVER_NAME: nat := 0
  const NAME_TYPE_HOST_NAME: byte := 0

  /** Handshake header (4), client_version (2) and random (32). */
  const FIXED_SIZE: nat := 38

  /** A host name, null, or a RangeError thrown by a read past the end. */
  datatype Found = Threw | Absent | Host(name: bytes)

  // ---------------------------------------------------------------- what the walks compute

  /** First host_name entry of a list region; a truncated entry ends the search. */
  function FindHost(list: bytes): Option<bytes>
    decreases |list|
  {
    if |list| < 3 || 3 + U16(list, 1) > |list| then None
    else if list[0] == NAME_TYPE_HOST_NAME then Some(list[3..3 + U16(list, 1)])
    else FindHost(list[3 + U16(list, 1)..])
  }

  /** Body of the first server_name extension of an extensions region, clamped to the region. */
  function FindServerName(region: bytes): Option<bytes>
    decreases |region|
  {
    if |region| < 4 then None
    else
      var next := 4 + U16(region, 2);
      if U16(region, 0) == EXTENSION_SERVER_NAME then Some(region[4..Min(next, |region|)])
      else if next > |region| then None
      else FindServerName(region[next..])
  }

  /** The bytes a 16-bit length field at `at` covers, clamped to the buffer. */
  function Clamp(data: bytes, at: nat): bytes
    requires at + 2 <= |data|
  {
    data[at + 2..Min(at + 2 + U16(data, at), |data|)]
  }

  function ServerNameList(data: bytes): Found {
    if |data| < 2 then Threw
    else
      match FindHost(Clamp(data, 0))
      case None => Absent
      case Some(h) => Host(h)
  }

  /** Where the walk over the fixed part and the three length-prefixed vectors ends, if inside. */
  function ExtensionsOffset(m: bytes): Option<nat> {
    if FIXED_SIZE + 1 > |m| then None
    else
      var ciphers := FIXED_SIZE + 1 + m[FIXED_SIZE];
      if ciphers + 2 > |m| then None
      else
        var compression := ciphers + 2 + U16(m, ciphers);
        if compression + 1 > |m| then None
        else Some(compression + 1 + m[compression])
  }

  function Walk(m: bytes): Found {
    if m == [] || m[0] != HANDSHAKE_CLIENT_HELLO then Absent
    else
      match ExtensionsOffset(m)
      case None => Threw
      case Some(at) =>
        if at + 2 > |m| then Absent
        else
          match FindServerName(Clamp(m, at))
          case None => Absent
          case Some(body) => ServerNameList(body)
  }

  // ---------------------------------------------------------------- the loops

  /** The search from `offset` on, past the end included. */
  function HostFrom(data: bytes, offset: nat, end: nat): Option<bytes>
    requires end <= |data|
  {
    if offset > end then None else FindHost(data[offset..end])
  }

  function ServerNameFrom(m: bytes, offset: nat, end: nat): Option<bytes>
    requires end <= |m|
  {
    if offset > end then None else FindServerName(m[offset..end])
  }

  lemma HostStep(data: bytes, offset: nat, end: nat)
    requires end <= |data|
    ensures HostFrom(data, offset, end) ==
            if offset + 3 > end then None
            else
              var start, length := offset + 3, U16(data, offset + 1);
              if start + length > end then None
              else if data[offset] == NAME_TYPE_HOST_NAME then Some(data[start..start + length])
              else HostFrom(data, start + length, end)
  {
    if offset + 3 <= end {
      var here, length := data[offset..end], U16(data, offset + 1);
      assert here[1] == data[offset + 1] && here[2] == data[offset + 2];
      if 3 + length <= |here| {
        SliceOfSlice(data, offset, end, 3, 3 + length);
        SliceOfSlice(data, offset, end, 3 + length, |here|);
      }
    }
  }

  lemma ExtensionStep(m: bytes, offset: nat, end: nat)
    requires end <= |m|
    ensures ServerNameFrom(m, offset, end) ==
            if offset + 4 > end then None
            else
              var start, length := offset + 4, U16(m, offset + 2);
              if U16(m, offset) == EXTENSION_SERVER_NAME then Some(m[start..Min(start + length, end)])
              else ServerNameFrom(m, start + length, end)
  {
    if offset + 4 <= end {
      var here, length := m[offset..end], U16(m, offset + 2);
      assert here[0] == m[offset] && here[1] == m[offset + 1];
      assert here[2] == m[offset + 2] && here[3] == m[offset + 3];
      SliceOfSlice(m, offset, end, 4, Min(4 + length, |here|));
      if 4 + length <= |here| {
        SliceOfSlice(m, offset, end, 4 + length, |here|);
      }
    }
  }

  method ParseServerNameList(data: bytes) returns (r: Found)
    ensures r == ServerNameList(data)
  {
    if |data| < 2 {
      return Threw;
    }
    var end := Min(2 + U16(data, 0), |data|);
    var offset := 2;
    ghost var found := HostFrom(data, offset, end);
    while offset + 3 <= end
      invariant 2 <= offset
      invariant HostFrom(data, offset, end) == found
      decreases end - offset
    {
      var nameType := data[offset];
      var length := U16(data, offset + 1);
      var start := offset + 3;
      HostStep(data, offset, end);
      if start + length > end {
        return Absent;
      }
      if nameType == NAME_TYPE_HOST_NAME {
        return Host(data[start..start + length]);
      }
      offset := start + length;
    }
    HostStep(data, offset, end);
    return Absent;
  }

  method ParseClientHello(message: bytes) returns (r: Found)
    ensures r == Walk(message)
  {
    if message == [] || message[0] != HANDSHAKE_CLIENT_HELLO {
      return Absent;
    }
    var offset := FIXED_SIZE;
    if offset >= |message| { return Threw; }
    offset := offset + 1 + message[offset];
    if offset + 2 > |message| { return Threw; }
    offset := offset + 2 + U16(message, offset);
    if offset >= |message| { return Threw; }
    offset := offset + 1 + message[offset];

    if offset + 2 > |message| {
      return Absent;
    }
    var extensionsEnd := Min(offset + 2 + U16(message, offset), |message|);
    r := ParseExtensions(message, offset + 2, extensionsEnd);
  }

  /** parseClientHello's loop over the extensions in message[start..extensionsEnd]. */
  method ParseExtensions(message: bytes, first: nat, extensionsEnd: nat) returns (r: Found)
    requires first <= extensionsEnd <= |message|
    ensures r == match FindServerName(message[first..extensionsEnd])
                 case None => Absent
                 case Some(body) => ServerNameList(body)
  {
    var offset := first;
    ghost var found := ServerNameFrom(message, first, extensionsEnd);
    while offset + 4 <= extensionsEnd
      invariant 0 <= offset
      invariant ServerNameFrom(message, offset, extensionsEnd) == found
      decreases extensionsEnd - offset
    {
      var kind := U16(message, offset);
      var length := U16(message, offset + 2);
      var start := offset + 4;
      ExtensionStep(message, offset, extensionsEnd);
      if kind == EXTENSION_SERVER_NAME {
        r := ParseServerNameList(message[start..Min(start + length, extensionsEnd)]);
        return;
      }
      offset := start + length;
    }
    ExtensionStep(message, offset, extensionsEnd);
    return Absent;
  }

  // ---------------------------------------------------------------- a grammar, and soundness

  datatype Entry = Entry(kind: byte, name: bytes)
  datatype Extension = Extension(kind: nat, body: bytes)

  type LegalEntry = e: Entry | |e.name| < 0x1_0000 witness Entry(0, [])
  type LegalExtension = e: Extension | e.kind < 0x1_0000 && |e.body| < 0x1_0000 witness Extension(0, [])

  function EntryBytes(e: LegalEntry): bytes {
    [e.kind, |e.name| / 256, |e.name| % 256] + e.name
  }

  function ExtensionBytes(e: LegalExtension): bytes {
    [e.kind / 256, e.kind % 256, |e.body| / 256, |e.body| % 256] + e.body
  }

  function EntriesBytes(es: seq<LegalEntry>): bytes {
    if es == [] then [] else EntryBytes(es[0]) + EntriesBytes(es[1..])
  }

  function ExtensionsBytes(es: seq<LegalExtension>): bytes {
    if es == [] then [] else ExtensionBytes(es[0]) + ExtensionsBytes(es[1..])
  }

  predicate NoHostName(es: seq<LegalEntry>) {
    forall i :: 0 <= i < |es| ==> es[i].kind != 0
  }

  predicate NoServerName(es: seq<LegalExtension>) {
    forall i :: 0 <= i < |es| ==> es[i].kind != 0
  }

  /** list ::= entry* host_name(h) anything, none of the first entries being a host_name. */
  ghost predicate FirstHostIs(list: bytes, h: bytes) {
    exists es: seq<LegalEntry>, rest: bytes ::
      NoHostName(es) && |h| < 0x1_0000 && list == EntriesBytes(es) + (EntryBytes(Entry(0, h)) + rest)
  }

  /** A server_name extension with this length field, whose body may be cut by the region's end. */
  ghost predicate ServerNameHeads(tail: bytes, length: nat, body: bytes) {
    && length < 0x1_0000
    && [0, 0, length / 256, length % 256] + body <= tail
    && (|body| == length || (|body| < length && |tail| == 4 + |body|))
  }

  /** region ::= extension* server_name(body) anything, no earlier server_name. */
  ghost predicate FirstServerNameIs(region: bytes, body: bytes) {
    exists es: seq<LegalExtension>, tail: bytes, length: nat ::
      NoServerName(es) && region == ExtensionsBytes(es) + tail && ServerNameHeads(tail, length, body)
  }

  /** data ::= uint16 length, then `inner`: that many bytes, or all there are. */
  ghost predicate Prefixed(data: bytes, inner: bytes) {
    exists length: nat, rest: bytes ::
      && length < 0x1_0000
      && data == [length / 256, length % 256] + inner + rest
      && (|inner| == length || (|inner| < length && rest == []))
  }

  /** m ::= 0x01 37*OCTET vector8 vector16 vector8 extensions */
  ghost predicate HelloWithExtensions(m: bytes, fixed: bytes, session: bytes, ciphers: bytes,
                                      compression: bytes, extensions: bytes)
  {
    && |fixed| == 38 && fixed[0] == 1
    && |session| < 256 && |ciphers| < 0x1_0000 && |compression| < 256
    && m == fixed + [|session|] + session + [|ciphers| / 256, |ciphers| % 256] + ciphers
            + [|compression|] + compression + extensions
  }

  ghost predicate IsHello(m: bytes, extensions: bytes) {
    exists fixed: bytes, session: bytes, ciphers: bytes, compression: bytes ::
      HelloWithExtensions(m, fixed, session, ciphers, compression, extensions)
  }

  /** The whole derivation: the hello, its extensions, the first server_name, its first host_name. */
  ghost predicate NamesHost(m: bytes, h: bytes) {
    exists extensions: bytes, region: bytes, body: bytes, list: bytes ::
      && IsHello(m, extensions)
      && Prefixed(extensions, region)
      && FirstServerNameIs(region, body)
      && Prefixed(body, list)
      && FirstHostIs(list, h)
  }

  lemma EntryFields(e: LegalEntry, rest: bytes)
    ensures var s := EntryBytes(e) + rest; var n := 3 + |e.name|;
            |s| >= n && s[0] == e.kind && U16(s, 1) == |e.name| && s[3..n] == e.name && s[n..] == rest
  {
    var s := EntryBytes(e) + rest;
    assert U16(s, 1) == |e.name|;
  }

  lemma ExtensionFields(kind: nat, length: nat, body: bytes, rest: bytes)
    requires kind < 0x1_0000 && length < 0x1_0000
    ensures var s := [kind / 256, kind % 256, length / 256, length % 256] + body + rest;
            && U16(s, 0) == kind && U16(s, 2) == length
            && s[4..4 + |body|] == body && s[4 + |body|..] == rest
  {
    var s := [kind / 256, kind % 256, length / 256, length % 256] + body + rest;
    assert U16(s, 0) == kind && U16(s, 2) == length;
  }

  /** Entries that are not host names are skipped. */
  lemma {:induction false} SkipEntries(es: seq<LegalEntry>, rest: bytes)
    requires NoHostName(es)
    ensures FindHost(EntriesBytes(es) + rest) == FindHost(rest)
    decreases |es|
  {
    if es == [] {
      assert EntriesBytes(es) + rest == rest;
    } else {
      var more := EntriesBytes(es[1..]);
      Assoc(EntryBytes(es[0]), more, rest);
      EntryFields(es[0], more + rest);
      SkipEntries(es[1..], rest);
    }
  }

  lemma {:induction false} SkipExtensions(es: seq<LegalExtension>, rest: bytes)
    requires NoServerName(es)
    ensures FindServerName(ExtensionsBytes(es) + rest) == FindServerName(rest)
    decreases |es|
  {
    if es == [] {
      assert ExtensionsBytes(es) + rest == rest;
    } else {
      var more := ExtensionsBytes(es[1..]);
      Assoc(ExtensionBytes(es[0]), more, rest);
      ExtensionFields(es[0].kind, |es[0].body|, es[0].body, more + rest);
      SkipExtensions(es[1..], rest);
    }
  }

  lemma {:induction false} HostSplits(list: bytes) returns (es: seq<LegalEntry>, rest: bytes)
    requires FindHost(list).Some?
    ensures NoHostName(es) && |FindHost(list).value| < 0x1_0000
    ensures list == EntriesBytes(es) + (EntryBytes(Entry(0, FindHost(list).value)) + rest)
    decreases |list|
  {
    var n := 3 + U16(list, 1);
    var e := Entry(list[0], list[3..n]);
    assert list == EntryBytes(e) + list[n..];
    if e.kind == NAME_TYPE_HOST_NAME {
      es, rest := [], list[n..];
    } else {
      var tail;
      tail, rest := HostSplits(list[n..]);
      es := [e] + tail;
      assert es[1..] == tail;
      Assoc(EntryBytes(e), EntriesBytes(tail), EntryBytes(Entry(0, FindHost(list).value)) + rest);
    }
  }

  lemma HeaderBytes(region: bytes)
    requires |region| >= 4
    ensures var kind, length := U16(region, 0), U16(region, 2);
            [kind / 256, kind % 256, length / 256, length % 256] == region[..4]
  {
    FieldOfU16(region, 0);
    FieldOfU16(region, 2);
    assert region[..2] + region[2..4] == region[..4];
  }

  /** The whole extension at the front of a region. */
  lemma FirstExtension(region: bytes) returns (e: LegalExtension)
    requires |region| >= 4 && |region| >= 4 + U16(region, 2)
    ensures e.kind == U16(region, 0) && region == ExtensionBytes(e) + region[4 + U16(region, 2)..]
  {
    var next := 4 + U16(region, 2);
    HeaderBytes(region);
    e := Extension(U16(region, 0), region[4..next]);
    assert region == region[..4] + region[4..next] + region[next..];
  }

  lemma ConsExtension(e: LegalExtension, es: seq<LegalExtension>, tail: bytes) returns (all: seq<LegalExtension>)
    requires e.kind != EXTENSION_SERVER_NAME && NoServerName(es)
    ensures NoServerName(all) && ExtensionsBytes(all) + tail == ExtensionBytes(e) + (ExtensionsBytes(es) + tail)
  {
    all := [e] + es;
    assert all[1..] == es;
    Assoc(ExtensionBytes(e), ExtensionsBytes(es), tail);
  }

  lemma {:induction false} ServerNameAt(region: bytes)
    requires |region| >= 4 && U16(region, 0) == EXTENSION_SERVER_NAME
    ensures ServerNameHeads(region, U16(region, 2), FindServerName(region).value)
  {
    var length := U16(region, 2);
    var end := Min(4 + length, |region|);
    HeaderBytes(region);
    assert region[..4] + region[4..end] == region[..end];
  }

  lemma {:induction false} ServerNameSplits(region: bytes, body: bytes)
      returns (es: seq<LegalExtension>, tail: bytes, length: nat)
    requires FindServerName(region) == Some(body)
    ensures NoServerName(es) && region == ExtensionsBytes(es) + tail && ServerNameHeads(tail, length, body)
    decreases |region|
  {
    length := U16(region, 2);
    if U16(region, 0) == EXTENSION_SERVER_NAME {
      es, tail := [], region;
      ServerNameAt(region);
    } else {
      var e := FirstExtension(region);
      var more;
      more, tail, length := ServerNameSplits(region[4 + length..], body);
      es := ConsExtension(e, more, tail);
    }
  }

  lemma FindHostCharacterised(list: bytes, h: bytes)
    ensures FindHost(list) == Some(h) <==> FirstHostIs(list, h)
  {
    if FindHost(list) == Some(h) {
      var es, rest := HostSplits(list);
    }
    forall es: seq<LegalEntry>, rest: bytes
      | NoHostName(es) && |h| < 0x1_0000 && list == EntriesBytes(es) + (EntryBytes(Entry(0, h)) + rest)
      ensures FindHost(list) == Some(h)
    {
      SkipEntries(es, EntryBytes(Entry(0, h)) + rest);
      EntryFields(Entry(0, h), rest);
    }
  }

  lemma HeadsFound(tail: bytes, length: nat, body: bytes)
    requires ServerNameHeads(tail, length, body)
    ensures FindServerName(tail) == Some(body)
  {
    var rest := tail[4 + |body|..];
    assert tail == [0, 0, length / 256, length % 256] + body + rest;
    ExtensionFields(0, length, body, rest);
  }

  lemma FindServerNameCharacterised(region: bytes, body: bytes)
    ensures FindServerName(region) == Some(body) <==> FirstServerNameIs(region, body)
  {
    if FindServerName(region) == Some(body) {
      var es, tail, length := ServerNameSplits(region, body);
    }
    forall es: seq<LegalExtension>, tail: bytes, length: nat
      | NoServerName(es) && region == ExtensionsBytes(es) + tail && ServerNameHeads(tail, length, body)
      ensures FindServerName(region) == Some(body)
    {
      SkipExtensions(es, tail);
      HeadsFound(tail, length, body);
    }
  }

  lemma PrefixedIsClamp(data: bytes, inner: bytes)
    ensures Prefixed(data, inner) <==> |data| >= 2 && Clamp(data, 0) == inner
  {
    forall length: nat, rest: bytes
      | length < 0x1_0000 && data == [length / 256, length % 256] + inner + rest
        && (|inner| == length || (|inner| < length && rest == []))
      ensures |data| >= 2 && Clamp(data, 0) == inner
    {
      assert U16(data, 0) == length;
    }
    if |data| >= 2 && Clamp(data, 0) == inner {
      var length, rest := U16(data, 0), data[2 + |inner|..];
      FieldOfU16(data, 0);
      assert data == [length / 256, length % 256] + inner + rest;
    }
  }

  lemma HelloOffset(m: bytes, fixed: bytes, session: bytes, ciphers: bytes, compression: bytes, extensions: bytes)
    requires HelloWithExtensions(m, fixed, session, ciphers, compression, extensions)
    ensures m[0] == HANDSHAKE_CLIENT_HELLO
    ensures ExtensionsOffset(m) == Some(|m| - |extensions|)
    ensures m[|m| - |extensions|..] == extensions
  {
    var c := FIXED_SIZE + 1 + |session|;
    assert m[FIXED_SIZE] == |session|;
    assert U16(m, c) == |ciphers|;
    assert m[c + 2 + |ciphers|] == |compression|;
  }

  lemma HelloSplits(m: bytes)
    requires m != [] && m[0] == HANDSHAKE_CLIENT_HELLO
    requires ExtensionsOffset(m).Some? && ExtensionsOffset(m).value <= |m|
    ensures IsHello(m, m[ExtensionsOffset(m).value..])
  {
    var c := FIXED_SIZE + 1 + m[FIXED_SIZE];
    var z := c + 2 + U16(m, c);
    var at := ExtensionsOffset(m).value;
    FieldOfU16(m, c);
    assert HelloWithExtensions(m, m[..FIXED_SIZE], m[FIXED_SIZE + 1..c], m[c + 2..z], m[z + 1..at], m[at..]);
  }

  /** The three vectors are where the walk finds them, and the walk finds no others. */
  lemma HelloCharacterised(m: bytes, extensions: bytes)
    ensures IsHello(m, extensions) <==>
            && m != [] && m[0] == 1
            && ExtensionsOffset(m).Some?
            && ExtensionsOffset(m).value <= |m|
            && extensions == m[ExtensionsOffset(m).value..]
  {
    forall fixed, session, ciphers, compression
      | HelloWithExtensions(m, fixed, session, ciphers, compression, extensions)
      ensures m[0] == HANDSHAKE_CLIENT_HELLO && ExtensionsOffset(m) == Some(|m| - |extensions|)
              && extensions == m[ExtensionsOffset(m).value..]
    {
      HelloOffset(m, fixed, session, ciphers, compression, extensions);
    }
    if m != [] && m[0] == HANDSHAKE_CLIENT_HELLO && ExtensionsOffset(m).Some?
       && ExtensionsOffset(m).value <= |m| && extensions == m[ExtensionsOffset(m).value..]
    {
      HelloSplits(m);
    }
  }

  lemma ClampSuffix(m: bytes, at: nat)
    requires at + 2 <= |m|
    ensures Clamp(m[at..], 0) == Clamp(m, at)
  {
    assert U16(m[at..], 0) == U16(m, at);
  }

  /**
   * Soundness and completeness of the walk on arbitrary bytes: a host name comes out exactly when
   * the grammar derives it, with no later server_name extension or host_name entry ever preferred.
   */
  lemma WalkCharacterised(m: bytes, h: bytes)
    ensures Walk(m) == Host(h) <==> NamesHost(m, h)
  {
    if Walk(m) == Host(h) {
      var at := ExtensionsOffset(m).value;
      var extensions := m[at..];
      ClampSuffix(m, at);
      var region := Clamp(extensions, 0);
      var body := FindServerName(region).value;
      var list := Clamp(body, 0);
      HelloCharacterised(m, extensions);
      PrefixedIsClamp(extensions, region);
      FindServerNameCharacterised(region, body);
      PrefixedIsClamp(body, list);
      FindHostCharacterised(list, h);
    }
    forall extensions, region, body, list
      | IsHello(m, extensions) && Prefixed(extensions, region) && FirstServerNameIs(region, body)
        && Prefixed(body, list) && FirstHostIs(list, h)
      ensures Walk(m) == Host(h)
    {
      HelloCharacterised(m, extensions);
      PrefixedIsClamp(extensions, region);
      ClampSuffix(m, ExtensionsOffset(m).value);
      FindServerNameCharacterised(region, body);
      PrefixedIsClamp(body, list);
      FindHostCharacterised(list, h);
    }
  }
}
