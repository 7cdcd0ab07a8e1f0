/** The PTP message header on the wire (tsn_gptp/mdeth.c; section 11.4.2 of IEEE 802.1AS-2020).
    Numbers are the bits of the machine's types; signed ones are in two's complement. */
module Header {
  datatype Ids = Ids(majorSdoId: bv8, messageType: bv8, minorVersionPTP: bv8, versionPTP: bv8)

  datatype Body = Body(
    messageLength: bv16, domainIndex: bv8, minorSdoId: bv8, flags: seq<bv8>,
    correctionField: bv64, messageTypeSpecific: seq<bv8>)

  datatype Source = Source(
    clockIdentity: seq<bv8>, portIndex: bv16, sequenceId: bv16, control: bv8, logMessageInterval: bv8)

  /** PTPMsgHeader */
  datatype Head = Head(ids: Ids, body: Body, source: Source)

  predicate Shaped(h: Head) {
    |h.body.flags| == 2 && |h.body.messageTypeSpecific| == 4 && |h.source.clockIdentity| == 8
  }

  const SIZE := 34
  const MESSAGE_LENGTH := 2
  const DOMAIN_NUMBER := 4
  const MINOR_SDO_ID := 5
  const FLAGS := 6
  const CORRECTION_FIELD := 8
  const MESSAGE_TYPE_SPECIFIC := 16
  const SOURCE_PORT_IDENTITY := 20
  const SEQUENCE_ID := 30
  const CONTROL := 32
  const LOG_MESSAGE_INTERVAL := 33

  // ----- network byte order -----

  function Be16(v: bv16): (s: seq<bv8>)
    ensures |s| == 2
  {
    [(v >> 8) as bv8, (v & 0xFF) as bv8]
  }

  function FromBe16(s: seq<bv8>): bv16
    requires |s| == 2
  {
    ((s[0] as bv16) << 8) | (s[1] as bv16)
  }

  function Be32(v: bv32): (s: seq<bv8>)
    ensures |s| == 4
  {
    Be16((v >> 16) as bv16) + Be16((v & 0xFFFF) as bv16)
  }

  function FromBe32(s: seq<bv8>): bv32
    requires |s| == 4
  {
    ((FromBe16(s[..2]) as bv32) << 16) | (FromBe16(s[2..]) as bv32)
  }

  function Be64(v: bv64): (s: seq<bv8>)
    ensures |s| == 8
  {
    Be32((v >> 32) as bv32) + Be32((v & 0xFFFF_FFFF) as bv32)
  }

  function FromBe64(s: seq<bv8>): bv64
    requires |s| == 8
  {
    ((FromBe32(s[..4]) as bv64) << 32) | (FromBe32(s[4..]) as bv64)
  }

  lemma Be16RoundTrip(v: bv16)
    ensures FromBe16(Be16(v)) == v
  {
  }

  lemma FromBe16RoundTrip(s: seq<bv8>)
    requires |s| == 2
    ensures Be16(FromBe16(s)) == s
  {
  }

  lemma Halves32(hi: bv16, lo: bv16)
    ensures var v := ((hi as bv32) << 16) | (lo as bv32);
            (v >> 16) as bv16 == hi && (v & 0xFFFF) as bv16 == lo
  {
  }

  lemma Join32(v: bv32)
    ensures (((v >> 16) as bv16 as bv32) << 16) | ((v & 0xFFFF) as bv16 as bv32) == v
  {
  }

  lemma Halves64(hi: bv32, lo: bv32)
    ensures var v := ((hi as bv64) << 32) | (lo as bv64);
            (v >> 32) as bv32 == hi && (v & 0xFFFF_FFFF) as bv32 == lo
  {
  }

  lemma Join64(v: bv64)
    ensures (((v >> 32) as bv32 as bv64) << 32) | ((v & 0xFFFF_FFFF) as bv32 as bv64) == v
  {
  }

  lemma Be32RoundTrip(v: bv32)
    ensures FromBe32(Be32(v)) == v
  {
    hide Be16, FromBe16;
    var hi, lo := (v >> 16) as bv16, (v & 0xFFFF) as bv16;
    assert Be32(v)[..2] == Be16(hi) && Be32(v)[2..] == Be16(lo);
    Be16RoundTrip(hi);
    Be16RoundTrip(lo);
    Join32(v);
  }

  lemma FromBe32RoundTrip(s: seq<bv8>)
    requires |s| == 4
    ensures Be32(FromBe32(s)) == s
  {
    hide Be16, FromBe16;
    FromBe16RoundTrip(s[..2]);
    FromBe16RoundTrip(s[2..]);
    Halves32(FromBe16(s[..2]), FromBe16(s[2..]));
    assert s == s[..2] + s[2..];
  }

  lemma Be64RoundTrip(v: bv64)
    ensures FromBe64(Be64(v)) == v
  {
    hide Be32, FromBe32;
    var hi, lo := (v >> 32) as bv32, (v & 0xFFFF_FFFF) as bv32;
    assert Be64(v)[..4] == Be32(hi) && Be64(v)[4..] == Be32(lo);
    Be32RoundTrip(hi);
    Be32RoundTrip(lo);
    Join64(v);
  }

  lemma FromBe64RoundTrip(s: seq<bv8>)
    requires |s| == 8
    ensures Be64(FromBe64(s)) == s
  {
    hide Be32, FromBe32;
    FromBe32RoundTrip(s[..4]);
    FromBe32RoundTrip(s[4..]);
    Halves64(FromBe32(s[..4]), FromBe32(s[4..]));
    assert s == s[..4] + s[4..];
  }

  // ----- the header -----

  /** Two 4-bit values in one byte, as the code joins them: the high one is cut off, the low one
      is not. */
  function Nibbles(hi: bv8, lo: bv8): bv8 { (hi << 4) | lo }

  /** md_compose_head */
  function Encode(h: Head): (b: seq<bv8>)
    requires Shaped(h)
    ensures |b| == SIZE
  {
    [Nibbles(h.ids.majorSdoId, h.ids.messageType), Nibbles(h.ids.minorVersionPTP, h.ids.versionPTP)]
    + EncodeBody(h.body) + EncodeSource(h.source)
  }

  function EncodeBody(b: Body): (r: seq<bv8>)
    requires |b.flags| == 2 && |b.messageTypeSpecific| == 4
    ensures |r| == 18
  {
    Be16(b.messageLength) + [b.domainIndex, b.minorSdoId] + b.flags + Be64(b.correctionField)
    + b.messageTypeSpecific
  }

  function EncodeSource(s: Source): (r: seq<bv8>)
    requires |s.clockIdentity| == 8
    ensures |r| == 14
  {
    s.clockIdentity + Be16(s.portIndex) + Be16(s.sequenceId) + [s.control, s.logMessageInterval]
  }

  /** md_decompose_head */
  function Decode(b: seq<bv8>): (h: Head)
    requires |b| == SIZE
    ensures Shaped(h)
  {
    Head(DecodeIds(b[0], b[1]), DecodeBody(b), DecodeSource(b))
  }

  function DecodeIds(b0: bv8, b1: bv8): Ids { Ids(b0 >> 4, b0 & 0xF, b1 >> 4, b1 & 0xF) }

  function DecodeBody(b: seq<bv8>): Body
    requires |b| == SIZE
  {
    Body(FromBe16(b[MESSAGE_LENGTH..4]), b[DOMAIN_NUMBER], b[MINOR_SDO_ID], b[FLAGS..8],
         FromBe64(b[CORRECTION_FIELD..16]), b[MESSAGE_TYPE_SPECIFIC..20])
  }

  function DecodeSource(b: seq<bv8>): Source
    requires |b| == SIZE
  {
    Source(b[SOURCE_PORT_IDENTITY..28], FromBe16(b[28..30]), FromBe16(b[SEQUENCE_ID..32]),
           b[CONTROL], b[LOG_MESSAGE_INTERVAL])
  }

  /** The fields the standard gives 4 bits hold no more than that. */
  predicate FourBits(ids: Ids) {
    ids.majorSdoId < 16 && ids.messageType < 16 && ids.minorVersionPTP < 16 && ids.versionPTP < 16
  }

  lemma IdsRoundTripIff(ids: Ids)
    ensures DecodeIds(Nibbles(ids.majorSdoId, ids.messageType), Nibbles(ids.minorVersionPTP, ids.versionPTP)) == ids
            <==> FourBits(ids)
  {
  }

  lemma IdsJoin(b0: bv8, b1: bv8)
    ensures var ids := DecodeIds(b0, b1);
            && Nibbles(ids.majorSdoId, ids.messageType) == b0
            && Nibbles(ids.minorVersionPTP, ids.versionPTP) == b1
            && FourBits(ids)
  {
  }

  lemma BodyRoundTrip(h: Head)
    requires Shaped(h)
    ensures DecodeBody(Encode(h)) == h.body
  {
    hide Be16, FromBe16, Be64, FromBe64;
    var b := Encode(h);
    assert b[MESSAGE_LENGTH..4] == Be16(h.body.messageLength);
    assert b[FLAGS..8] == h.body.flags;
    assert b[CORRECTION_FIELD..16] == Be64(h.body.correctionField);
    assert b[MESSAGE_TYPE_SPECIFIC..20] == h.body.messageTypeSpecific;
    Be16RoundTrip(h.body.messageLength);
    Be64RoundTrip(h.body.correctionField);
  }

  lemma SourceRoundTrip(h: Head)
    requires Shaped(h)
    ensures DecodeSource(Encode(h)) == h.source
  {
    hide Be16, FromBe16, EncodeBody;
    var b := Encode(h);
    assert b[SOURCE_PORT_IDENTITY..28] == h.source.clockIdentity;
    assert b[28..30] == Be16(h.source.portIndex);
    assert b[SEQUENCE_ID..32] == Be16(h.source.sequenceId);
    Be16RoundTrip(h.source.portIndex);
    Be16RoundTrip(h.source.sequenceId);
  }

  /** A header comes back from the wire exactly when its 4-bit fields fit. */
  lemma EncodeDecodeIff(h: Head)
    requires Shaped(h)
    ensures Decode(Encode(h)) == h <==> FourBits(h.ids)
  {
    hide EncodeBody, EncodeSource, DecodeBody, DecodeSource, DecodeIds, Nibbles, FourBits;
    BodyRoundTrip(h);
    SourceRoundTrip(h);
    IdsRoundTripIff(h.ids);
  }

  lemma BodyJoins(b: seq<bv8>)
    requires |b| == SIZE
    ensures EncodeBody(DecodeBody(b)) == b[2..20]
  {
    hide Be16, FromBe16, Be64, FromBe64;
    FromBe16RoundTrip(b[MESSAGE_LENGTH..4]);
    FromBe64RoundTrip(b[CORRECTION_FIELD..16]);
  }

  lemma SourceJoins(b: seq<bv8>)
    requires |b| == SIZE
    ensures EncodeSource(DecodeSource(b)) == b[20..34]
  {
    hide Be16, FromBe16;
    FromBe16RoundTrip(b[28..30]);
    FromBe16RoundTrip(b[SEQUENCE_ID..32]);
  }

  /** Every 34 bytes are the encoding of what they decode to, and its 4-bit fields fit. */
  lemma DecodeEncode(b: seq<bv8>)
    requires |b| == SIZE
    ensures Encode(Decode(b)) == b && FourBits(Decode(b).ids)
  {
    hide EncodeBody, EncodeSource, DecodeBody, DecodeSource, DecodeIds, Nibbles, FourBits;
    IdsJoin(b[0], b[1]);
    BodyJoins(b);
    SourceJoins(b);
    assert b == [b[0], b[1]] + b[2..20] + b[20..34];
  }

  /** So no two headers with 4-bit fields look the same on the wire. */
  lemma EncodeInjective(g: Head, h: Head)
    requires Shaped(g) && Shaped(h) && FourBits(g.ids) && FourBits(h.ids)
    requires Encode(g) == Encode(h)
    ensures g == h
  {
    EncodeDecodeIff(g);
    EncodeDecodeIff(h);
  }

  // ----- the layout on the wire, as numbers -----

  /** Bytes as one number, the most significant byte first. */
  function Join2(a: bv8, b: bv8): int { 256 * a as int + b as int }

  function Join8(a: bv8, b: bv8, c: bv8, d: bv8, e: bv8, f: bv8, g: bv8, h: bv8): bv64 {
    a as bv64 * 0x100_0000_0000_0000 + b as bv64 * 0x1_0000_0000_0000
    + c as bv64 * 0x100_0000_0000 + d as bv64 * 0x1_0000_0000
    + e as bv64 * 0x100_0000 + f as bv64 * 0x1_0000 + g as bv64 * 0x100 + h as bv64
  }

  function Join4(a: bv8, b: bv8, c: bv8, d: bv8): bv32 {
    a as bv32 * 0x100_0000 + b as bv32 * 0x1_0000 + c as bv32 * 0x100 + d as bv32
  }

  predicate IdsLaidOut(ids: Ids, b0: bv8, b1: bv8) {
    && b0 as int == 16 * ids.majorSdoId as int + ids.messageType as int
    && b1 as int == 16 * ids.minorVersionPTP as int + ids.versionPTP as int
  }

  predicate BodyLaidOut(body: Body, b: seq<bv8>)
    requires |b| == 34
  {
    && Join2(b[2], b[3]) == body.messageLength as int
    && b[4] == body.domainIndex && b[5] == body.minorSdoId && b[6..8] == body.flags
    && Join8(b[8], b[9], b[10], b[11], b[12], b[13], b[14], b[15]) == body.correctionField
    && b[16..20] == body.messageTypeSpecific
  }

  predicate SourceLaidOut(source: Source, b: seq<bv8>)
    requires |b| == 34
  {
    && b[20..28] == source.clockIdentity
    && Join2(b[28], b[29]) == source.portIndex as int
    && Join2(b[30], b[31]) == source.sequenceId as int
    && b[32] == source.control && b[33] == source.logMessageInterval
  }

  /** Where each field lies, and how. */
  predicate LaidOut(h: Head, b: seq<bv8>)
    requires |b| == 34
  {
    (FourBits(h.ids) ==> IdsLaidOut(h.ids, b[0], b[1])) && BodyLaidOut(h.body, b) && SourceLaidOut(h.source, b)
  }

  lemma TwoBytes(v: bv16)
    ensures 256 * ((v >> 8) as bv8) as int + ((v & 0xFF) as bv8) as int == v as int
  {
  }

  lemma NumberOf16(v: bv16, s: seq<bv8>)
    requires s == Be16(v)
    ensures |s| == 2 && Join2(s[0], s[1]) == v as int
  {
    TwoBytes(v);
    var hi, lo := (v >> 8) as bv8, (v & 0xFF) as bv8;
    assert s[0] == hi && s[1] == lo;
    hide Be16;
  }

  lemma NumberOf32(v: bv32, s: seq<bv8>)
    requires s == Be32(v)
    ensures |s| == 4 && Join4(s[0], s[1], s[2], s[3]) == v
  {
  }

  lemma EightBytes(v: bv64, a: bv8, b: bv8, c: bv8, d: bv8, e: bv8, f: bv8, g: bv8, h: bv8)
    requires Join4(a, b, c, d) == (v >> 32) as bv32 && Join4(e, f, g, h) == (v & 0xFFFF_FFFF) as bv32
    ensures Join8(a, b, c, d, e, f, g, h) == v
  {
  }

  lemma NumberOf64(v: bv64, s: seq<bv8>)
    requires s == Be64(v)
    ensures |s| == 8 && Join8(s[0], s[1], s[2], s[3], s[4], s[5], s[6], s[7]) == v
  {
    hide Be32, Join4, Join8;
    NumberOf32((v >> 32) as bv32, s[..4]);
    NumberOf32((v & 0xFFFF_FFFF) as bv32, s[4..]);
    EightBytes(v, s[0], s[1], s[2], s[3], s[4], s[5], s[6], s[7]);
  }

  lemma NumberOfNibbles(hi: bv8, lo: bv8)
    requires hi < 16 && lo < 16
    ensures Nibbles(hi, lo) as int == 16 * hi as int + lo as int
  {
  }

  lemma IdsAreLaidOut(ids: Ids, b0: bv8, b1: bv8)
    requires b0 == Nibbles(ids.majorSdoId, ids.messageType) && b1 == Nibbles(ids.minorVersionPTP, ids.versionPTP)
    ensures FourBits(ids) ==> IdsLaidOut(ids, b0, b1)
  {
    if FourBits(ids) {
      NumberOfNibbles(ids.majorSdoId, ids.messageType);
      NumberOfNibbles(ids.minorVersionPTP, ids.versionPTP);
    }
  }

  lemma BodyIsLaidOut(h: Head)
    requires Shaped(h)
    ensures BodyLaidOut(h.body, Encode(h))
  {
    hide Be16, Be64, Join2, Join8, EncodeSource, Nibbles;
    var b := Encode(h);
    assert b[MESSAGE_LENGTH..4] == Be16(h.body.messageLength);
    assert b[FLAGS..8] == h.body.flags;
    assert b[CORRECTION_FIELD..16] == Be64(h.body.correctionField);
    assert b[MESSAGE_TYPE_SPECIFIC..20] == h.body.messageTypeSpecific;
    NumberOf16(h.body.messageLength, b[MESSAGE_LENGTH..4]);
    NumberOf64(h.body.correctionField, b[CORRECTION_FIELD..16]);
  }

  lemma SourceIsLaidOut(h: Head)
    requires Shaped(h)
    ensures SourceLaidOut(h.source, Encode(h))
  {
    hide Be16, Join2, EncodeBody, Nibbles;
    var b := Encode(h);
    assert b[SOURCE_PORT_IDENTITY..28] == h.source.clockIdentity;
    NumberOf16(h.source.portIndex, b[28..30]);
    NumberOf16(h.source.sequenceId, b[SEQUENCE_ID..32]);
  }

  /** The header on the wire, byte by byte: every number with its most significant byte first. */
  lemma EncodingIsLaidOut(h: Head)
    requires Shaped(h)
    ensures LaidOut(h, Encode(h))
  {
    hide Nibbles, IdsLaidOut, FourBits, BodyLaidOut, SourceLaidOut, EncodeBody, EncodeSource;
    var b := Encode(h);
    IdsAreLaidOut(h.ids, b[0], b[1]);
    BodyIsLaidOut(h);
    SourceIsLaidOut(h);
  }

  /** And so a received header is read: the structure is laid out in the bytes it came from. */
  lemma DecodedIsLaidOut(b: seq<bv8>)
    requires |b| == SIZE
    ensures LaidOut(Decode(b), b) && FourBits(Decode(b).ids)
  {
    hide Encode, Decode, LaidOut, FourBits;
    DecodeEncode(b);
    EncodingIsLaidOut(Decode(b));
  }

  // ----- the buffer and the structure, filled in place -----

  /** The buffer with these bytes written at `at`. */
  function Splice(buffer: seq<bv8>, at: nat, bytes: seq<bv8>): (r: seq<bv8>)
    requires at + |bytes| <= |buffer|
    ensures |r| == |buffer|
  {
    buffer[..at] + bytes + buffer[at + |bytes|..]
  }

  lemma SpliceNext(buffer: seq<bv8>, at: nat, a: seq<bv8>, b: seq<bv8>)
    requires at + |a| + |b| <= |buffer|
    ensures Splice(Splice(buffer, at, a), at + |a|, b) == Splice(buffer, at, a + b)
  {
  }

  lemma SpliceByte(buffer: seq<bv8>, at: nat, x: bv8)
    requires at < |buffer|
    ensures buffer[at := x] == Splice(buffer, at, [x])
  {
  }

  /** memcpy */
  method Copy(src: seq<bv8>, dst: array<bv8>, at: nat)
    requires at + |src| <= dst.Length
    modifies dst
    ensures dst[..] == Splice(old(dst[..]), at, src)
  {
    var i := 0;
    while i < |src|
      invariant i <= |src|
      invariant forall k | 0 <= k < i :: dst[at + k] == src[k]
      invariant forall k | 0 <= k < dst.Length && !(at <= k < at + i) :: dst[k] == old(dst[k])
    {
      dst[at + i] := src[i];
      i := i + 1;
    }
  }

  class PtpMsgHeader {
    var ids: Ids
    var body: Body
    var source: Source

    ghost function Abs(): Head
      reads this
    {
      Head(ids, body, source)
    }

    constructor (h: Head)
      ensures Abs() == h
    {
      ids, body, source := h.ids, h.body, h.source;
    }

    /** md_compose_head: the bytes behind the header are left alone. */
    method Compose(phead: array<bv8>)
      requires Shaped(Abs()) && phead.Length >= SIZE
      modifies phead
      ensures phead[..SIZE] == Encode(Abs()) && phead[SIZE..] == old(phead[SIZE..])
    {
      hide Nibbles, EncodeBody, EncodeSource;
      ghost var buffer := phead[..];
      ghost var first := Nibbles(ids.majorSdoId, ids.messageType);
      ghost var second := Nibbles(ids.minorVersionPTP, ids.versionPTP);
      ComposeIds(phead);
      ComposeBody(phead);
      SpliceNext(buffer, 0, [first, second], EncodeBody(body));
      ComposeSource(phead);
      SpliceNext(buffer, 0, [first, second] + EncodeBody(body), EncodeSource(source));
      assert phead[..] == Splice(buffer, 0, Encode(Abs()));
    }

    method ComposeIds(phead: array<bv8>)
      requires phead.Length >= SIZE
      modifies phead
      ensures phead[..] == Splice(old(phead[..]), 0, [
                Nibbles(ids.majorSdoId, ids.messageType), Nibbles(ids.minorVersionPTP, ids.versionPTP)])
    {
      hide Nibbles;
      phead[0] := Nibbles(ids.majorSdoId, ids.messageType);
      phead[1] := Nibbles(ids.minorVersionPTP, ids.versionPTP);
    }

    method ComposeBody(phead: array<bv8>)
      requires Shaped(Abs()) && phead.Length >= SIZE
      modifies phead
      ensures phead[..] == Splice(old(phead[..]), MESSAGE_LENGTH, EncodeBody(body))
    {
      hide Be16, Be64, Splice;
      ghost var b0 := phead[..];
      var length, correction := Be16(body.messageLength), Be64(body.correctionField);
      ghost var done := length;
      Copy(length, phead, MESSAGE_LENGTH);
      SpliceByte(phead[..], DOMAIN_NUMBER, body.domainIndex);
      phead[DOMAIN_NUMBER] := body.domainIndex;
      SpliceNext(b0, MESSAGE_LENGTH, done, [body.domainIndex]);
      done := done + [body.domainIndex];
      SpliceByte(phead[..], MINOR_SDO_ID, body.minorSdoId);
      phead[MINOR_SDO_ID] := body.minorSdoId;
      SpliceNext(b0, MESSAGE_LENGTH, done, [body.minorSdoId]);
      done := done + [body.minorSdoId];
      Copy(body.flags, phead, FLAGS);
      SpliceNext(b0, MESSAGE_LENGTH, done, body.flags);
      done := done + body.flags;
      Copy(correction, phead, CORRECTION_FIELD);
      SpliceNext(b0, MESSAGE_LENGTH, done, correction);
      done := done + correction;
      Copy(body.messageTypeSpecific, phead, MESSAGE_TYPE_SPECIFIC);
      SpliceNext(b0, MESSAGE_LENGTH, done, body.messageTypeSpecific);
      assert done + body.messageTypeSpecific == EncodeBody(body);
    }

    method ComposeSource(phead: array<bv8>)
      requires Shaped(Abs()) && phead.Length >= SIZE
      modifies phead
      ensures phead[..] == Splice(old(phead[..]), SOURCE_PORT_IDENTITY, EncodeSource(source))
    {
      hide Be16, Splice;
      ghost var b0 := phead[..];
      var port, id := Be16(source.portIndex), Be16(source.sequenceId);
      ghost var done := source.clockIdentity;
      Copy(source.clockIdentity, phead, SOURCE_PORT_IDENTITY);
      Copy(port, phead, SOURCE_PORT_IDENTITY + 8);
      SpliceNext(b0, SOURCE_PORT_IDENTITY, done, port);
      done := done + port;
      Copy(id, phead, SEQUENCE_ID);
      SpliceNext(b0, SOURCE_PORT_IDENTITY, done, id);
      done := done + id;
      SpliceByte(phead[..], CONTROL, source.control);
      phead[CONTROL] := source.control;
      SpliceNext(b0, SOURCE_PORT_IDENTITY, done, [source.control]);
      done := done + [source.control];
      SpliceByte(phead[..], LOG_MESSAGE_INTERVAL, source.logMessageInterval);
      phead[LOG_MESSAGE_INTERVAL] := source.logMessageInterval;
      SpliceNext(b0, SOURCE_PORT_IDENTITY, done, [source.logMessageInterval]);
      assert done + [source.logMessageInterval] == EncodeSource(source);
    }

    /** md_decompose_head */
    method Decompose(phead: array<bv8>)
      requires phead.Length >= SIZE
      modifies this
      ensures Shaped(Abs()) && Abs() == Decode(phead[..SIZE])
    {
      hide FromBe16, FromBe64;
      ids := Ids((phead[0] >> 4) & 0xF, phead[0] & 0xF, (phead[1] >> 4) & 0xF, phead[1] & 0xF);
      body := Body(
        FromBe16(phead[MESSAGE_LENGTH..4]), phead[DOMAIN_NUMBER], phead[MINOR_SDO_ID], phead[FLAGS..8],
        FromBe64(phead[CORRECTION_FIELD..16]), phead[MESSAGE_TYPE_SPECIFIC..20]);
      source := Source(
        phead[SOURCE_PORT_IDENTITY..28], FromBe16(phead[28..30]), FromBe16(phead[SEQUENCE_ID..32]),
        phead[CONTROL], phead[LOG_MESSAGE_INTERVAL]);
      SameSlices(phead[..], phead[..SIZE]);
    }
  }

  lemma SameSlices(a: seq<bv8>, b: seq<bv8>)
    requires |a| >= SIZE && b == a[..SIZE]
    ensures b[2..4] == a[2..4] && b[6..8] == a[6..8] && b[8..16] == a[8..16] && b[16..20] == a[16..20]
    ensures b[20..28] == a[20..28] && b[28..30] == a[28..30] && b[30..32] == a[30..32]
  {
  }
}
