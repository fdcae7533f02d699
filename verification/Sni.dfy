/**
 * The SNI parser's public face (isClientHello, isComplete and parseSNI in src/utils/sni/index.js),
 * and what it promises about hellos a client actually serialises and fragments.
 */
module Sni {
  import opened Bytes
  import opened Handshake
  import opened ClientHello

  /** isClientHello: reads of missing bytes give undefined, which equals none of the three values. */
  predicate IsClientHello(buf: bytes) {
    |buf| > 5 && buf[0] == 22 && buf[1] == 3 && buf[5] == 1
  }

  /** isComplete: a thrown error counts as complete. */
  predicate Complete?(buf: bytes) {
    Reassemble(buf) != Incomplete
  }

  /** parseSNI: every error is caught and becomes null. */
  function HostName(buf: bytes): Option<bytes> {
    match Reassemble(buf)
    case Complete(m) => (match Walk(m) case Host(h) => Some(h) case _ => None)
    case _ => None
  }

  method IsComplete(buf: bytes) returns (r: bool)
    ensures r == Complete?(buf)
  {
    var v := ReadHandshake(buf);
    r := match v case Incomplete => false case Complete(_) => true case Malformed(_) => true;
  }

  method ParseSNI(buf: bytes) returns (r: Option<bytes>)
    ensures r == HostName(buf)
  {
    var v := ReadHandshake(buf);
    match v
    case Malformed(_) => r := None;
    case Incomplete => r := None;
    case Complete(message) =>
      var found := ParseClientHello(message);
      r := match found case Host(h) => Some(h) case Absent => None case Threw => None;
  }

  // ---------------------------------------------------------------- arbitrary bytes

  /** Records at the front of the buffer carry a message that derives the host name. */
  ghost predicate CarriesHost(buf: bytes, rs: seq<LegalRecord>, m: bytes, h: bytes) {
    Wire(rs) <= buf && Carried(Payload(rs), m) && NamesHost(m, h)
  }

  lemma CarriedHostIsRead(buf: bytes, rs: seq<LegalRecord>, m: bytes, h: bytes)
    requires CarriesHost(buf, rs, m, h)
    ensures HostName(buf) == Some(h)
  {
    assert Describes(buf, Complete(m), rs);
    VerdictCharacterised(buf, Complete(m));
    WalkCharacterised(m, h);
  }

  lemma ReadHostIsCarried(buf: bytes, h: bytes) returns (rs: seq<LegalRecord>, m: bytes)
    requires HostName(buf) == Some(h)
    ensures CarriesHost(buf, rs, m, h)
  {
    m := Reassemble(buf).message;
    VerdictCharacterised(buf, Complete(m));
    rs :| Describes(buf, Complete(m), rs);
    WalkCharacterised(m, h);
  }

  /** Whatever the bytes: parseSNI answers h exactly when the buffer carries h. */
  lemma HostNameCharacterised(buf: bytes, h: bytes)
    ensures HostName(buf) == Some(h) <==> exists rs: seq<LegalRecord>, m: bytes :: CarriesHost(buf, rs, m, h)
  {
    forall rs: seq<LegalRecord>, m: bytes | CarriesHost(buf, rs, m, h)
      ensures HostName(buf) == Some(h)
    {
      CarriedHostIsRead(buf, rs, m, h);
    }
    if HostName(buf) == Some(h) {
      var rs, m := ReadHostIsCarried(buf, h);
    }
  }

  /** How a message is cut into records, and what follows it, never shows in the answer. */
  lemma FramingsAgree(rs: seq<LegalRecord>, rs': seq<LegalRecord>, m: bytes, more: bytes, more': bytes)
    requires Carried(Payload(rs), m) && Carried(Payload(rs'), m)
    ensures HostName(Wire(rs) + more) == HostName(Wire(rs') + more')
  {
    FramingReassembles(rs, m, more);
    FramingReassembles(rs', m, more');
  }

  /** Ready to be answered: what waitSNI tests after every chunk. */
  predicate Ready(buf: bytes) {
    IsClientHello(buf) && Complete?(buf)
  }

  /** On the bytes: a handshake record of major version 3 opening a ClientHello, not cut off inside. */
  lemma ReadyCharacterised(buf: bytes)
    ensures Ready(buf) <==>
            && |buf| > 5 && buf[0] == 22 && buf[1] == 3 && buf[5] == 1
            && exists v: Verdict, rs: seq<LegalRecord> :: !v.Incomplete? && Describes(buf, v, rs)
  {
    VerdictCharacterised(buf, Reassemble(buf));
    forall v: Verdict, rs: seq<LegalRecord> | !v.Incomplete? && Describes(buf, v, rs)
      ensures Complete?(buf)
    {
      VerdictCharacterised(buf, v);
    }
  }

  /** More bytes never unsettle a ready buffer, nor change its answer. */
  lemma ReadyMonotone(buf: bytes, more: bytes)
    ensures Complete?(buf) ==> Complete?(buf + more) && HostName(buf + more) == HostName(buf)
    ensures Ready(buf) ==> Ready(buf + more)
  {
    if Complete?(buf) {
      VerdictMonotone(buf, more);
    }
  }

  // ---------------------------------------------------------------- hellos as clients build them

  datatype HelloExtension = Other(kind: nat, body: bytes) | ServerNames(entries: seq<LegalEntry>)

  datatype Hello = Hello(versionAndRandom: bytes, session: bytes, ciphers: bytes, compression: bytes,
                         extensions: Option<seq<HelloExtension>>)

  function NamesBody(entries: seq<LegalEntry>): bytes
    requires |EntriesBytes(entries)| < 0x1_0000
  {
    var s := EntriesBytes(entries);
    [|s| / 256, |s| % 256] + s
  }

  predicate FitsExtension(e: HelloExtension) {
    match e
    case Other(kind, body) => 0 < kind < 0x1_0000 && |body| < 0x1_0000
    case ServerNames(entries) => |EntriesBytes(entries)| + 2 < 0x1_0000
  }

  function Raw(e: HelloExtension): LegalExtension
    requires FitsExtension(e)
  {
    match e
    case Other(kind, body) => Extension(kind, body)
    case ServerNames(entries) => Extension(0, NamesBody(entries))
  }

  function RawAll(es: seq<HelloExtension>): (r: seq<LegalExtension>)
    requires forall e :: e in es ==> FitsExtension(e)
    ensures |r| == |es|
  {
    if es == [] then [] else [Raw(es[0])] + RawAll(es[1..])
  }

  /** Everything fits the length field that announces it. */
  predicate Serialisable(h: Hello) {
    && |h.versionAndRandom| == 34
    && |h.session| < 256 && |h.ciphers| < 0x1_0000 && |h.compression| < 256
    && (h.extensions.Some? ==>
          && (forall e :: e in h.extensions.value ==> FitsExtension(e))
          && |ExtensionsBytes(RawAll(h.extensions.value))| < 0x1_0000)
  }

  function ExtensionsPart(h: Hello): (s: bytes)
    requires Serialisable(h)
    ensures |s| < 0x1_0002
  {
    if h.extensions.None? then []
    else
      var s := ExtensionsBytes(RawAll(h.extensions.value));
      [|s| / 256, |s| % 256] + s
  }

  function Body(h: Hello): (s: bytes)
    requires Serialisable(h)
    ensures |s| < 0x100_0000
  {
    h.versionAndRandom + [|h.session|] + h.session + [|h.ciphers| / 256, |h.ciphers| % 256] + h.ciphers
    + [|h.compression|] + h.compression + ExtensionsPart(h)
  }

  function Serialise(h: Hello): bytes
    requires Serialisable(h)
  {
    var body := Body(h);
    [1, |body| / 0x1_0000, |body| / 256 % 256, |body| % 256] + body
  }

  function FirstHostName(entries: seq<LegalEntry>): Option<bytes> {
    if entries == [] then None
    else if entries[0].kind == 0 then Some(entries[0].name)
    else FirstHostName(entries[1..])
  }

  function FirstServerNames(es: seq<HelloExtension>): Option<seq<LegalEntry>> {
    if es == [] then None
    else if es[0].ServerNames? then Some(es[0].entries)
    else FirstServerNames(es[1..])
  }

  /** The name the client asked for. */
  function AskedFor(h: Hello): Option<bytes> {
    if h.extensions.None? then None
    else
      match FirstServerNames(h.extensions.value)
      case None => None
      case Some(entries) => FirstHostName(entries)
  }

  lemma {:induction false} EntriesReadBack(entries: seq<LegalEntry>)
    ensures FindHost(EntriesBytes(entries)) == FirstHostName(entries)
    decreases |entries|
  {
    if entries != [] {
      EntryFields(entries[0], EntriesBytes(entries[1..]));
      EntriesReadBack(entries[1..]);
    }
  }

  lemma NamesReadBack(entries: seq<LegalEntry>)
    requires |EntriesBytes(entries)| < 0x1_0000
    ensures ServerNameList(NamesBody(entries)) ==
            match FirstHostName(entries) case None => Absent case Some(h) => Host(h)
  {
    var s := EntriesBytes(entries);
    assert NamesBody(entries) == [|s| / 256, |s| % 256] + s + [];
    PrefixedIsClamp(NamesBody(entries), s);
    EntriesReadBack(entries);
  }

  lemma {:induction false} ExtensionsReadBack(es: seq<HelloExtension>)
    requires forall e :: e in es ==> FitsExtension(e)
    ensures FirstServerNames(es).Some? ==> |EntriesBytes(FirstServerNames(es).value)| < 0x1_0000
    ensures FindServerName(ExtensionsBytes(RawAll(es))) ==
            match FirstServerNames(es) case None => None case Some(entries) => Some(NamesBody(entries))
    decreases |es|
  {
    if es != [] {
      var raw := Raw(es[0]);
      var more := ExtensionsBytes(RawAll(es[1..]));
      assert RawAll(es)[1..] == RawAll(es[1..]);
      ExtensionFields(raw.kind, |raw.body|, raw.body, more);
      ExtensionsReadBack(es[1..]);
    }
  }

  lemma Flatten(a: bytes, b: bytes, c: bytes, d: bytes, e: bytes)
    ensures a + (b + c + d + e) == a + b + c + d + e
  {
  }

  lemma SerialiseIsHello(h: Hello)
    requires Serialisable(h)
    ensures IsHello(Serialise(h), ExtensionsPart(h))
  {
    var n := |Body(h)|;
    var head, part := [1, n / 0x1_0000, n / 256 % 256, n % 256], ExtensionsPart(h);
    var session, ciphers, compression :=
      [|h.session|] + h.session, [|h.ciphers| / 256, |h.ciphers| % 256] + h.ciphers, [|h.compression|] + h.compression;
    BodyInParts(h, session, ciphers, compression);
    Flatten(head, h.versionAndRandom, session, ciphers, compression + part);
    HelloInParts(head + h.versionAndRandom, h.session, h.ciphers, h.compression, part);
  }

  lemma BodyInParts(h: Hello, session: bytes, ciphers: bytes, compression: bytes)
    requires Serialisable(h)
    requires session == [|h.session|] + h.session && compression == [|h.compression|] + h.compression
    requires ciphers == [|h.ciphers| / 256, |h.ciphers| % 256] + h.ciphers
    ensures Body(h) == h.versionAndRandom + session + ciphers + (compression + ExtensionsPart(h))
  {
  }

  lemma HelloInParts(fixed: bytes, session: bytes, ciphers: bytes, compression: bytes, extensions: bytes)
    requires |fixed| == 38 && fixed[0] == 1
    requires |session| < 256 && |ciphers| < 0x1_0000 && |compression| < 256
    ensures IsHello(fixed + ([|session|] + session) + ([|ciphers| / 256, |ciphers| % 256] + ciphers)
                    + ([|compression|] + compression + extensions), extensions)
  {
    var m := fixed + ([|session|] + session) + ([|ciphers| / 256, |ciphers| % 256] + ciphers)
             + ([|compression|] + compression + extensions);
    assert HelloWithExtensions(m, fixed, session, ciphers, compression, extensions);
  }

  /** The walk inverts the serialiser on every well-formed hello. */
  lemma {:induction false} WalkInvertsSerialise(h: Hello)
    requires Serialisable(h)
    ensures Walk(Serialise(h)) == match AskedFor(h) case None => Absent case Some(name) => Host(name)
  {
    var m, part := Serialise(h), ExtensionsPart(h);
    SerialiseIsHello(h);
    HelloCharacterised(m, part);
    var at := ExtensionsOffset(m).value;
    if h.extensions.Some? {
      var es := h.extensions.value;
      var s := ExtensionsBytes(RawAll(es));
      assert part == [|s| / 256, |s| % 256] + s + [];
      PrefixedIsClamp(part, s);
      ClampSuffix(m, at);
      ExtensionsReadBack(es);
      if FirstServerNames(es).Some? {
        NamesReadBack(FirstServerNames(es).value);
      }
    }
  }

  lemma SerialisedIsCarried(h: Hello, payload: bytes)
    requires Serialisable(h) && Serialise(h) <= payload
    ensures Carried(payload, Serialise(h))
  {
    var s, n := Serialise(h), |Body(h)|;
    assert payload[1] == s[1] && payload[2] == s[2] && payload[3] == s[3];
    ThreeBytes(n);
  }

  lemma ThreeBytes(n: nat)
    requires n < 0x100_0000
    ensures n == n / 0x1_0000 * 0x1_0000 + n / 256 % 256 * 256 + n % 256
  {
  }

  /**
   * Round trip under any fragmentation: however the hello is cut into non-empty records, whatever
   * the last record carries besides, and whatever follows, parseSNI answers what the client asked.
   */
  lemma FragmentedHelloReadsBack(h: Hello, rs: seq<LegalRecord>, trailing: bytes)
    requires Serialisable(h) && Serialise(h) <= Payload(rs)
    ensures Complete?(Wire(rs) + trailing)
    ensures HostName(Wire(rs) + trailing) == AskedFor(h)
  {
    SerialisedIsCarried(h, Payload(rs));
    FramingReassembles(rs, Serialise(h), trailing);
    WalkInvertsSerialise(h);
  }

  /** Only the record version of the first record decides whether waitSNI recognises the hello. */
  lemma FragmentedHelloRecognised(h: Hello, rs: seq<LegalRecord>, trailing: bytes)
    requires Serialisable(h) && Serialise(h) <= Payload(rs)
    ensures Ready(Wire(rs) + trailing) <==> rs[0].major == 3
  {
    var buf := Wire(rs) + trailing;
    FragmentedHelloReadsBack(h, rs, trailing);
    assert buf[5] == rs[0].fragment[0] == Payload(rs)[0] == Serialise(h)[0];
  }

  /** And until the last byte of an exact framing has arrived, the answer is "more data needed". */
  lemma FragmentedHelloWaits(h: Hello, rs: seq<LegalRecord>, k: nat)
    requires Serialisable(h) && Serialise(h) == Payload(rs)
    requires k < |Wire(rs)|
    ensures !Complete?(Wire(rs)[..k])
  {
    SerialisedIsCarried(h, Payload(rs));
    ProperPrefixIncomplete(rs, k);
  }
}
