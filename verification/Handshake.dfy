/**
 * Reassembly of the first handshake message from TLS records
 * (readHandshake in src/utils/sni/index.js; section 5.1 of RFC 8446).
 */
module Handshake {
  import opened Bytes

  const RECORD_HEADER_SIZE: nat := 5
  const HANDSHAKE_HEADER_SIZE: nat := 4
  const CONTENT_TYPE_HANDSHAKE: byte := 22

  datatype Fault = NotHandshakeRecord | EmptyRecord

  /** What readHandshake can say: more bytes needed, a message, or a thrown error. */
  datatype Verdict = Incomplete | Complete(message: bytes) | Malformed(fault: Fault)

  // ---------------------------------------------------------------- records

  datatype Record = Record(major: byte, minor: byte, fragment: bytes)

  /** A handshake record as a peer may send it: a non-empty fragment its length field can hold. */
  type LegalRecord = r: Record | 0 < |r.fragment| < 0x1_0000 witness Record(3, 1, [0])

  function WireOne(r: LegalRecord): bytes {
    [22, r.major, r.minor, |r.fragment| / 256, |r.fragment| % 256] + r.fragment
  }

  function Wire(rs: seq<LegalRecord>): bytes {
    if rs == [] then [] else WireOne(rs[0]) + Wire(rs[1..])
  }

  function Payload(rs: seq<LegalRecord>): bytes {
    if rs == [] then [] else rs[0].fragment + Payload(rs[1..])
  }

  /** The payload holds its first message entirely: header, and the length the header declares. */
  predicate Whole(payload: bytes) {
    |payload| >= HANDSHAKE_HEADER_SIZE && |payload| >= HANDSHAKE_HEADER_SIZE + U24(payload, 1)
  }

  function Message(payload: bytes): bytes
    requires Whole(payload)
  {
    payload[..HANDSHAKE_HEADER_SIZE + U24(payload, 1)]
  }

  // ---------------------------------------------------------------- the reassembler

  /** The rest of the buffer stops inside a record (or before one). */
  predicate Truncated(rest: bytes) {
    || |rest| < RECORD_HEADER_SIZE
    || (rest[0] == CONTENT_TYPE_HANDSHAKE && 0 < U16(rest, 3) && RECORD_HEADER_SIZE + U16(rest, 3) > |rest|)
  }

  function FaultAt(rest: bytes): Option<Fault> {
    if |rest| < RECORD_HEADER_SIZE then None
    else if rest[0] != CONTENT_TYPE_HANDSHAKE then Some(NotHandshakeRecord)
    else if U16(rest, 3) == 0 then Some(EmptyRecord)
    else None
  }

  /** Continue reading records from `rest`, having collected `payload`. */
  function Scan(payload: bytes, rest: bytes): Verdict
    decreases |rest|
  {
    if Whole(payload) then Complete(Message(payload))
    else if FaultAt(rest).Some? then Malformed(FaultAt(rest).value)
    else if Truncated(rest) then Incomplete
    else
      var next := RECORD_HEADER_SIZE + U16(rest, 3);
      Scan(payload + rest[RECORD_HEADER_SIZE..next], rest[next..])
  }

  function Reassemble(buf: bytes): Verdict {
    Scan([], buf)
  }

  // ---------------------------------------------------------------- reading back what was framed

  lemma WholeExtends(p: bytes, q: bytes)
    requires Whole(p)
    ensures Whole(p + q) && Message(p + q) == Message(p)
  {
    assert U24(p + q, 1) == U24(p, 1);
  }

  lemma ScanRecord(payload: bytes, r: LegalRecord, rest: bytes)
    ensures Scan(payload, WireOne(r) + rest) == Scan(payload + r.fragment, rest)
  {
    var all := WireOne(r) + rest;
    if Whole(payload) {
      WholeExtends(payload, r.fragment);
    } else {
      var next := RECORD_HEADER_SIZE + |r.fragment|;
      assert U16(all, 3) == |r.fragment|;
      assert all[RECORD_HEADER_SIZE..next] == r.fragment;
      assert all[next..] == rest;
    }
  }

  /** Reading any framing amounts to having its payload in hand. */
  lemma {:induction false} ScanWire(payload: bytes, rs: seq<LegalRecord>, rest: bytes)
    ensures Scan(payload, Wire(rs) + rest) == Scan(payload + Payload(rs), rest)
    decreases |rs|
  {
    if rs == [] {
      assert Wire(rs) + rest == rest;
      assert payload + Payload(rs) == payload;
    } else {
      var tail, first := rs[1..], WireOne(rs[0]);
      Assoc(first, Wire(tail), rest);
      Assoc(payload, rs[0].fragment, Payload(tail));
      ScanRecord(payload, rs[0], Wire(tail) + rest);
      ScanWire(payload + rs[0].fragment, tail, rest);
    }
  }

  /** Every buffer splits into the records that were read and a rest that stopped the reader. */
  lemma {:induction false} ScanSplits(payload: bytes, buf: bytes) returns (rs: seq<LegalRecord>)
    ensures Wire(rs) <= buf
    ensures var p, rest := payload + Payload(rs), buf[|Wire(rs)|..];
            Whole(p) || Truncated(rest) || FaultAt(rest).Some?
    decreases |buf|
  {
    if Whole(payload) || Truncated(buf) || FaultAt(buf).Some? {
      rs := [];
      assert payload + Payload(rs) == payload;
    } else {
      var next := RECORD_HEADER_SIZE + U16(buf, 3);
      var r := Record(buf[1], buf[2], buf[RECORD_HEADER_SIZE..next]);
      assert WireOne(r) == buf[..next];
      var more := ScanSplits(payload + r.fragment, buf[next..]);
      rs := [r] + more;
      assert Wire(rs) == buf[..next] + Wire(more);
      assert buf[|Wire(rs)|..] == buf[next..][|Wire(more)|..];
      assert payload + Payload(rs) == payload + r.fragment + Payload(more);
    }
  }

  /** On the bytes: m is the message at the front of p, type, 24-bit length and body. */
  ghost predicate Carried(p: bytes, m: bytes) {
    |p| >= 4 && m <= p && |m| == 4 + p[1] as int * 0x1_0000 + p[2] as int * 256 + p[3] as int
  }

  /** On the bytes: not even a record header, or one that announces more than there is. */
  ghost predicate CutOff(rest: bytes) {
    || |rest| < 5
    || (rest[0] == 22 && |rest| - 5 < rest[3] as int * 256 + rest[4] as int)
  }

  ghost predicate Faulty(rest: bytes, f: Fault) {
    && |rest| >= 5
    && match f
       case NotHandshakeRecord => rest[0] != 22
       case EmptyRecord => rest[0] == 22 && rest[3] == 0 && rest[4] == 0
  }

  /**
   * The three verdicts, told without the reader: records are peeled off the front of the buffer,
   * and what is then left decides.
   */
  ghost predicate Describes(buf: bytes, v: Verdict, rs: seq<LegalRecord>) {
    && Wire(rs) <= buf
    && var p, rest := Payload(rs), buf[|Wire(rs)|..];
    match v
    case Complete(m) => Carried(p, m)
    case Incomplete => !(exists m :: Carried(p, m)) && CutOff(rest)
    case Malformed(f) => !(exists m :: Carried(p, m)) && Faulty(rest, f)
  }

  lemma CarriedIsMessage(p: bytes)
    ensures forall m :: Carried(p, m) <==> Whole(p) && m == Message(p)
    ensures (exists m :: Carried(p, m)) <==> Whole(p)
  {
    if Whole(p) {
      assert Carried(p, Message(p));
    }
  }

  lemma CutOffIsTruncated(rest: bytes)
    ensures CutOff(rest) <==> Truncated(rest)
    ensures forall f :: Faulty(rest, f) <==> FaultAt(rest) == Some(f)
  {
  }

  lemma DescribedIsVerdict(buf: bytes, v: Verdict, rs: seq<LegalRecord>)
    requires Describes(buf, v, rs)
    ensures Reassemble(buf) == v
  {
    var rest := buf[|Wire(rs)|..];
    CarriedIsMessage(Payload(rs));
    CutOffIsTruncated(rest);
    assert buf == Wire(rs) + rest;
    ScanWire([], rs, rest);
    assert [] + Payload(rs) == Payload(rs);
  }

  lemma VerdictCharacterised(buf: bytes, v: Verdict)
    ensures Reassemble(buf) == v <==> exists rs: seq<LegalRecord> :: Describes(buf, v, rs)
  {
    forall rs: seq<LegalRecord> | Describes(buf, v, rs)
      ensures Reassemble(buf) == v
    {
      DescribedIsVerdict(buf, v, rs);
    }
    if Reassemble(buf) == v {
      var rs := ScanSplits([], buf);
      var rest := buf[|Wire(rs)|..];
      assert buf == Wire(rs) + rest;
      CarriedIsMessage(Payload(rs));
      CutOffIsTruncated(rest);
      ScanWire([], rs, rest);
      assert [] + Payload(rs) == Payload(rs);
      assert Describes(buf, v, rs);
    }
  }

  // ---------------------------------------------------------------- the code

  lemma {:induction false} OneMoreRecord(rs: seq<LegalRecord>, r: LegalRecord)
    ensures Wire(rs + [r]) == Wire(rs) + WireOne(r)
    ensures Payload(rs + [r]) == Payload(rs) + r.fragment
    decreases |rs|
  {
    if rs == [] {
      assert rs + [r] == [r] && Wire([r][1..]) == [] && Payload([r][1..]) == [];
    } else {
      var tail := rs[1..];
      assert (rs + [r])[1..] == tail + [r];
      OneMoreRecord(tail, r);
      Assoc(WireOne(rs[0]), Wire(tail), WireOne(r));
      Assoc(rs[0].fragment, Payload(tail), r.fragment);
    }
  }

  /** Peeling off the record at `offset`, whole inside the buffer. */
  lemma WithRecordAt(buf: bytes, offset: nat, fragment: bytes, rs: seq<LegalRecord>, fragments: seq<bytes>)
      returns (rs': seq<LegalRecord>)
    requires offset + RECORD_HEADER_SIZE <= |buf| && buf[offset] == CONTENT_TYPE_HANDSHAKE
    requires 0 < |fragment| == U16(buf, offset + 3) <= |buf| - offset - RECORD_HEADER_SIZE
    requires fragment == buf[offset + RECORD_HEADER_SIZE..offset + RECORD_HEADER_SIZE + |fragment|]
    requires Wire(rs) == buf[..offset] && Payload(rs) == Concat(fragments)
    ensures Wire(rs') == buf[..offset + RECORD_HEADER_SIZE + |fragment|]
    ensures Payload(rs') == Concat(fragments + [fragment]) && |Payload(rs')| == |Payload(rs)| + |fragment|
    ensures |Payload(rs)| >= HANDSHAKE_HEADER_SIZE ==> U24(Payload(rs'), 1) == U24(Payload(rs), 1)
  {
    var r := Record(buf[offset + 1], buf[offset + 2], fragment);
    FieldOfU16(buf, offset + 3);
    assert WireOne(r) == buf[offset..offset + RECORD_HEADER_SIZE + |fragment|];
    OneMoreRecord(rs, r);
    ConcatOneMore(fragments, fragment);
    rs' := rs + [r];
  }

  /** What the reader answers when it stops at `offset`, having peeled off rs. */
  lemma StoppedAt(buf: bytes, offset: nat, v: Verdict, rs: seq<LegalRecord>)
    requires offset <= |buf| && Wire(rs) == buf[..offset] && !Whole(Payload(rs))
    requires v == if offset + RECORD_HEADER_SIZE > |buf| then Incomplete
                  else if buf[offset] != CONTENT_TYPE_HANDSHAKE then Malformed(NotHandshakeRecord)
                  else if U16(buf, offset + 3) == 0 then Malformed(EmptyRecord)
                  else Incomplete
    requires v == Incomplete && offset + RECORD_HEADER_SIZE <= |buf| ==>
               offset + RECORD_HEADER_SIZE + U16(buf, offset + 3) > |buf|
    ensures Reassemble(buf) == v
  {
    assert buf[offset..] == buf[|Wire(rs)|..];
    DescribedIsVerdict(buf, v, rs);
  }

  method ReadHandshake(buf: bytes) returns (v: Verdict)
    ensures v == Reassemble(buf)
  {
    var fragments: seq<bytes> := [];
    var offset := 0;
    var collected := 0;
    var total: Option<nat> := None;
    ghost var rs: seq<LegalRecord> := [];

    while total.None? || collected < total.value
      invariant 0 <= offset <= |buf|
      invariant Wire(rs) == buf[..offset] && Payload(rs) == Concat(fragments)
      invariant collected == |Payload(rs)|
      invariant total == if collected < HANDSHAKE_HEADER_SIZE then None
                         else Some(HANDSHAKE_HEADER_SIZE + U24(Payload(rs), 1))
      decreases |buf| - offset
    {
      if offset + RECORD_HEADER_SIZE > |buf| {
        StoppedAt(buf, offset, Incomplete, rs);
        return Incomplete;
      }
      if buf[offset] != CONTENT_TYPE_HANDSHAKE {
        StoppedAt(buf, offset, Malformed(NotHandshakeRecord), rs);
        return Malformed(NotHandshakeRecord);
      }
      var length := U16(buf, offset + 3);
      if length == 0 {
        StoppedAt(buf, offset, Malformed(EmptyRecord), rs);
        return Malformed(EmptyRecord);
      }
      if offset + RECORD_HEADER_SIZE + length > |buf| {
        StoppedAt(buf, offset, Incomplete, rs);
        return Incomplete;
      }

      var fragment := buf[offset + RECORD_HEADER_SIZE..offset + RECORD_HEADER_SIZE + length];
      rs := WithRecordAt(buf, offset, fragment, rs, fragments);
      fragments := fragments + [fragment];
      collected := collected + length;
      offset := offset + RECORD_HEADER_SIZE + length;

      if total.None? && collected >= HANDSHAKE_HEADER_SIZE {
        total := Some(HANDSHAKE_HEADER_SIZE + U24(Concat(fragments), 1));
      }
    }
    v := Complete(Concat(fragments)[..total.value]);
    DescribedIsVerdict(buf, v, rs);
  }

  // ---------------------------------------------------------------- growing buffers

  /** Once settled, a verdict and its message survive every extension of the buffer. */
  lemma {:induction false} ScanMonotone(payload: bytes, buf: bytes, more: bytes)
    requires Scan(payload, buf) != Incomplete
    ensures Scan(payload, buf + more) == Scan(payload, buf)
    decreases |buf|
  {
    var all := buf + more;
    if !Whole(payload) {
      assert U16(all, 3) == U16(buf, 3);
      if FaultAt(buf).None? {
        var next := RECORD_HEADER_SIZE + U16(buf, 3);
        assert all[RECORD_HEADER_SIZE..next] == buf[RECORD_HEADER_SIZE..next];
        assert all[next..] == buf[next..] + more;
        ScanMonotone(payload + buf[RECORD_HEADER_SIZE..next], buf[next..], more);
      }
    }
  }

  lemma VerdictMonotone(buf: bytes, more: bytes)
    requires Reassemble(buf) != Incomplete
    ensures Reassemble(buf + more) == Reassemble(buf)
  {
    ScanMonotone([], buf, more);
  }

  /** Any framing that carries the message, with anything after it, is read as that message. */
  lemma FramingReassembles(rs: seq<LegalRecord>, m: bytes, trailing: bytes)
    requires Carried(Payload(rs), m)
    ensures Reassemble(Wire(rs) + trailing) == Complete(m)
  {
    CarriedIsMessage(Payload(rs));
    ScanWire([], rs, trailing);
    assert [] + Payload(rs) == Payload(rs);
  }

  lemma CutRecordTruncated(r: LegalRecord, tail: bytes, k: nat)
    requires k < |WireOne(r)|
    ensures Truncated((WireOne(r) + tail)[..k]) && FaultAt((WireOne(r) + tail)[..k]).None?
  {
    var cut := (WireOne(r) + tail)[..k];
    if RECORD_HEADER_SIZE <= k {
      assert U16(cut, 3) == |r.fragment|;
    }
  }

  lemma InitPayload(rs: seq<LegalRecord>)
    requires |rs| > 1
    ensures Payload(rs[..|rs| - 1]) == rs[0].fragment + Payload(rs[1..][..|rs| - 2])
  {
    assert rs[..|rs| - 1] == [rs[0]] + rs[1..][..|rs| - 2];
  }

  lemma ScanFirst(payload: bytes, rs: seq<LegalRecord>, k: nat)
    requires rs != [] && |WireOne(rs[0])| <= k <= |Wire(rs)|
    ensures Scan(payload, Wire(rs)[..k])
            == Scan(payload + rs[0].fragment, Wire(rs[1..])[..k - |WireOne(rs[0])|])
  {
    var rest := Wire(rs[1..])[..k - |WireOne(rs[0])|];
    assert Wire(rs)[..k] == WireOne(rs[0]) + rest;
    ScanRecord(payload, rs[0], rest);
  }

  lemma {:induction false} ScanPrefix(payload: bytes, rs: seq<LegalRecord>, k: nat)
    requires k < |Wire(rs)|
    requires !Whole(payload + Payload(rs[..|rs| - 1]))
    ensures Scan(payload, Wire(rs)[..k]) == Incomplete
    decreases |rs|
  {
    var r, tail := rs[0], rs[1..];
    var next := |WireOne(r)|;
    if k >= next {
      ScanFirst(payload, rs, k);
      InitPayload(rs);
      Assoc(payload, r.fragment, Payload(tail[..|tail| - 1]));
      ScanPrefix(payload + r.fragment, tail, k - next);
    } else {
      if Whole(payload) {
        WholeExtends(payload, Payload(rs[..|rs| - 1]));
      }
      CutRecordTruncated(r, Wire(tail), k);
    }
  }

  /** A framing of exactly one message is not complete, and not malformed, one byte before its end. */
  lemma ProperPrefixIncomplete(rs: seq<LegalRecord>, k: nat)
    requires Carried(Payload(rs), Payload(rs))
    requires k < |Wire(rs)|
    ensures Reassemble(Wire(rs)[..k]) == Incomplete
  {
    CarriedIsMessage(Payload(rs));
    var init := Payload(rs[..|rs| - 1]);
    assert rs == rs[..|rs| - 1] + [rs[|rs| - 1]];
    OneMoreRecord(rs[..|rs| - 1], rs[|rs| - 1]);
    assert [] + init == init;
    ScanPrefix([], rs, k);
  }
}
