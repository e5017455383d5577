/** Pairing frames: the field codec, the frame header, and how parser and encoder undo each other. */
module PairingWire {
  import opened Common
  import opened BigEndian
  import opened Slices
  import Tlv = V1Tlv

  const HEADER_SIZE := 20
  const MAX_BODY_SIZE := 4_096
  const MAX_FRAME_SIZE := HEADER_SIZE + MAX_BODY_SIZE
  const MAX_FIELDS := 16
  const MAGIC: seq<u8> := [0x58, 0x4E, 0x4E, 0x50]

  const HELLO: u16 := 1
  const SELECT: u16 := 2
  const SELECT_ACK: u16 := 3
  const DECISION: u16 := 4
  const ABORT: u16 := 5

  datatype PairingError =
    | Malformed | LimitExceeded | SequenceViolation | UnsupportedVersion | UnsupportedProfile | DowngradeDetected
    | RoleMismatch | StateViolation | ReplayDetected | ConfirmationFailed | AuthenticatedReject | LocalReject
    | AlreadyDecided | Cancelled | Timeout | Busy | CertificateRejected | InternalFailure

  datatype Field = Field(id: u16, wire: u8, value: seq<u8>)

  datatype Frame = Frame(kind: u16, sequence: u32, fields: seq<Field>)

  predicate IsKnownWireType(wire: u8) {
    Tlv.U8 <= wire <= Tlv.BYTES
  }

  function FixedLength(wire: u8): nat {
    if wire == Tlv.U8 then 1
    else if wire == Tlv.U16 then 2
    else if wire == Tlv.U32 then 4
    else if wire == Tlv.U64 then 8
    else 0
  }

  // ----- Fields -----

  predicate Fits(f: Field) {
    |f.value| < 0x1_0000_0000
  }

  /** A field on the wire carries the flag octet 1. */
  function AsTlv(f: Field): Tlv.Field {
    Tlv.Field(f.id, f.wire, 1, f.value)
  }

  function EncodeBody(fields: seq<Field>): (bytes: seq<u8>)
    requires forall i :: 0 <= i < |fields| ==> Fits(fields[i])
  {
    if |fields| == 0 then []
    else
      assert Fits(fields[0]);
      Tlv.EncodeField(AsTlv(fields[0])) + EncodeBody(fields[1..])
  }

  /** A field the parser takes after one with identifier `previous`. */
  predicate Proper(f: Field, previous: u16) {
    && Fits(f) && f.id > previous && IsKnownWireType(f.wire)
    && (FixedLength(f.wire) != 0 ==> |f.value| == FixedLength(f.wire))
  }

  predicate AllProper(fields: seq<Field>, previous: u16) {
    |fields| == 0 || (Proper(fields[0], previous) && AllProper(fields[1..], fields[0].id))
  }

  /** The field at the start of `rest`, or nothing when it is malformed. */
  function ParseField(rest: seq<u8>, previous: u16): (r: Option<Field>)
    ensures r.Some? ==> 8 + |r.value.value| <= |rest|
  {
    if |rest| < 8 then None
    else
      var (id, wire, flags, length) := Tlv.Header(rest);
      if id == 0 || id <= previous || !IsKnownWireType(wire) || flags != 1 || length > |rest| - 8 then None
      else if FixedLength(wire) != 0 && length != FixedLength(wire) then None
      else Some(Field(id, wire, rest[8..8 + length]))
  }

  function ParseFields(rest: seq<u8>, previous: u16, count: nat): (r: Option<seq<Field>>)
    decreases |rest|
  {
    if |rest| == 0 then Some([])
    else if count == MAX_FIELDS then None
    else
      var field := ParseField(rest, previous);
      if field.None? then None
      else
        var more := ParseFields(rest[8 + |field.value.value|..], field.value.id, count + 1);
        if more.None? then None else Some([field.value] + more.value)
  }

  lemma ParseFieldOfEncoded(f: Field, rest: seq<u8>, previous: u16)
    requires Proper(f, previous)
    ensures var data := Tlv.EncodeField(AsTlv(f)) + rest;
            ParseField(data, previous) == Some(f) && data[8 + |f.value|..] == rest
  {
    Tlv.HeaderOfEncoded(AsTlv(f), rest);
  }

  lemma EncodedOfParseField(data: seq<u8>, previous: u16)
    requires ParseField(data, previous).Some?
    ensures var f := ParseField(data, previous).value;
            Proper(f, previous) && data == Tlv.EncodeField(AsTlv(f)) + data[8 + |f.value|..]
  {
    Tlv.EncodedOfHeader(data);
  }

  lemma {:induction false} AllProperFit(fields: seq<Field>, previous: u16)
    requires AllProper(fields, previous)
    ensures forall i :: 0 <= i < |fields| ==> Fits(fields[i])
  {
    if |fields| > 0 {
      AllProperFit(fields[1..], fields[0].id);
      assert forall i :: 1 <= i < |fields| ==> fields[i] == fields[1..][i - 1];
    }
  }

  lemma {:induction false} ParseEncodedBody(fields: seq<Field>, previous: u16, count: nat)
    requires AllProper(fields, previous) && count + |fields| <= MAX_FIELDS
    requires forall i :: 0 <= i < |fields| ==> Fits(fields[i])
    ensures ParseFields(EncodeBody(fields), previous, count) == Some(fields)
    decreases |fields|
  {
    hide ParseField;
    if |fields| > 0 {
      var rest := EncodeBody(fields[1..]);
      ParseFieldOfEncoded(fields[0], rest, previous);
      ParseEncodedBody(fields[1..], fields[0].id, count + 1);
      assert fields == [fields[0]] + fields[1..];
    }
  }

  lemma {:induction false} EncodeParsedBody(data: seq<u8>, previous: u16, count: nat)
    requires ParseFields(data, previous, count).Some? && count <= MAX_FIELDS
    ensures var fields := ParseFields(data, previous, count).value;
            && AllProper(fields, previous) && count + |fields| <= MAX_FIELDS
            && (forall i :: 0 <= i < |fields| ==> Fits(fields[i])) && data == EncodeBody(fields)
    decreases |data|
  {
    if |data| > 0 {
      EncodedOfParseField(data, previous);
      hide ParseField;
      var f := ParseField(data, previous).value;
      EncodeParsedBody(data[8 + |f.value|..], f.id, count + 1);
      var fields := ParseFields(data, previous, count).value;
      assert fields[1..] == ParseFields(data[8 + |f.value|..], f.id, count + 1).value;
      AllProperFit(fields, previous);
    }
  }

  // ----- Frames -----

  /** `ValidateFrameHeader`. */
  function HeaderError(encoded: seq<u8>): (r: Option<PairingError>)
    ensures r.None? ==> |encoded| >= HEADER_SIZE
  {
    if |encoded| < HEADER_SIZE || encoded[..4] != MAGIC || ReadU16(encoded[4..6]) != HEADER_SIZE then Some(Malformed)
    else if encoded[6] != 1 || encoded[7] != 0 then Some(UnsupportedVersion)
    else if !(HELLO <= ReadU16(encoded[8..10]) <= ABORT) || ReadU16(encoded[10..12]) != 0 then Some(Malformed)
    else if ReadU32(encoded[16..20]) > MAX_BODY_SIZE then Some(LimitExceeded)
    else None
  }

  function ParseFrame(encoded: seq<u8>): Result<Frame, PairingError> {
    var error := HeaderError(encoded);
    if error.Some? then Err(error.value)
    else if |encoded| != HEADER_SIZE + ReadU32(encoded[16..20]) then Err(Malformed)
    else
      var fields := ParseFields(encoded[HEADER_SIZE..], 0, 0);
      if fields.None? then Err(Malformed)
      else Ok(Frame(ReadU16(encoded[8..10]), ReadU32(encoded[12..16]), fields.value))
  }

  function Header(kind: u16, sequence: u32, length: u32): (bytes: seq<u8>)
    ensures |bytes| == HEADER_SIZE
  {
    MAGIC + WriteU16(HEADER_SIZE) + [1, 0] + WriteU16(kind) + WriteU16(0) + WriteU32(sequence) + WriteU32(length)
  }

  /** Frames that can be put on the wire. */
  predicate Encodable(f: Frame) {
    && HELLO <= f.kind <= ABORT && |f.fields| <= MAX_FIELDS && AllProper(f.fields, 0)
    && (forall i :: 0 <= i < |f.fields| ==> Fits(f.fields[i])) && |EncodeBody(f.fields)| <= MAX_BODY_SIZE
  }

  function EncodeFrame(f: Frame): (bytes: seq<u8>)
    requires Encodable(f)
    ensures HEADER_SIZE <= |bytes| <= MAX_FRAME_SIZE
  {
    Header(f.kind, f.sequence, |EncodeBody(f.fields)|) + EncodeBody(f.fields)
  }

  /** Where the parser finds each part of a header. */
  predicate IsHeader(h: seq<u8>, kind: u16, sequence: u32, length: u32) {
    && |h| == HEADER_SIZE && h[..4] == MAGIC && ReadU16(h[4..6]) == HEADER_SIZE && h[6..8] == [1, 0]
    && ReadU16(h[8..10]) == kind && ReadU16(h[10..12]) == 0
    && ReadU32(h[12..16]) == sequence && ReadU32(h[16..20]) == length
  }

  lemma HeaderLayout(kind: u16, sequence: u32, length: u32)
    ensures IsHeader(Header(kind, sequence, length), kind, sequence, length)
  {
    hide WriteU16, ReadU16, WriteU32, ReadU32;
    var a, b, c, d, e := WriteU16(HEADER_SIZE), WriteU16(kind), WriteU16(0), WriteU32(sequence), WriteU32(length);
    var version: seq<u8> := [1, 0];
    var h := Header(kind, sequence, length);
    assert h[..4] == MAGIC && h[4..6] == a && h[6..8] == version && h[8..10] == b;
    assert h[10..12] == c && h[12..16] == d && h[16..20] == e;
    ReadWriteU16(HEADER_SIZE);
    ReadWriteU16(kind);
    ReadWriteU16(0);
    ReadWriteU32(sequence);
    ReadWriteU32(length);
  }

  lemma HeaderUnique(h: seq<u8>, kind: u16, sequence: u32, length: u32)
    requires IsHeader(h, kind, sequence, length)
    ensures h == Header(kind, sequence, length)
  {
    WriteReadU16(h[4..6]);
    WriteReadU16(h[8..10]);
    WriteReadU16(h[10..12]);
    WriteReadU32(h[12..16]);
    WriteReadU32(h[16..20]);
    hide WriteU16, ReadU16, WriteU32, ReadU32;
    assert h == h[..4] + h[4..6] + h[6..8] + h[8..10] + h[10..12] + h[12..16] + h[16..20];
  }

  lemma HeadSlices(encoded: seq<u8>)
    requires |encoded| >= HEADER_SIZE
    ensures var h := encoded[..HEADER_SIZE];
            && encoded[..4] == h[..4] && encoded[4..6] == h[4..6] && encoded[8..10] == h[8..10]
            && encoded[10..12] == h[10..12]
            && encoded[12..16] == h[12..16] && encoded[16..20] == h[16..20] && h[6..8] == [encoded[6], encoded[7]]
  {
    SliceOfSlice(encoded, 0, 20, 4, 6);
    SliceOfSlice(encoded, 0, 20, 8, 10);
    SliceOfSlice(encoded, 0, 20, 10, 12);
    SliceOfSlice(encoded, 0, 20, 12, 16);
    SliceOfSlice(encoded, 0, 20, 16, 20);
  }

  /** A frame's header passes exactly when it is the header of some message with a body that is not too long. */
  lemma HeaderPasses(encoded: seq<u8>, kind: u16, sequence: u32, length: u32)
    requires |encoded| >= HEADER_SIZE && IsHeader(encoded[..HEADER_SIZE], kind, sequence, length)
    ensures HeaderError(encoded).None? <==> HELLO <= kind <= ABORT && length <= MAX_BODY_SIZE
    ensures ReadU16(encoded[8..10]) == kind && ReadU32(encoded[12..16]) == sequence
    ensures ReadU32(encoded[16..20]) == length
  {
    hide ReadU16, ReadU32;
    HeadSlices(encoded);
  }

  lemma PassingHeader(encoded: seq<u8>)
    requires HeaderError(encoded).None?
    ensures IsHeader(encoded[..HEADER_SIZE], ReadU16(encoded[8..10]), ReadU32(encoded[12..16]),
                     ReadU32(encoded[16..20]))
    ensures HELLO <= ReadU16(encoded[8..10]) <= ABORT
  {
    hide ReadU16, ReadU32;
    HeadSlices(encoded);
  }

  /** Whatever is encoded parses to the same frame. */
  lemma ParseEncoded(f: Frame)
    requires Encodable(f)
    ensures ParseFrame(EncodeFrame(f)) == Ok(f)
  {
    hide AllProper, IsHeader, Header, HeaderError, ReadU16, ReadU32, ParseFields;
    var body := EncodeBody(f.fields);
    var bytes := EncodeFrame(f);
    HeaderLayout(f.kind, f.sequence, |body|);
    assert bytes[..HEADER_SIZE] == Header(f.kind, f.sequence, |body|) && bytes[HEADER_SIZE..] == body;
    HeaderPasses(bytes, f.kind, f.sequence, |body|);
    ParseEncodedBody(f.fields, 0, 0);
  }

  /** Whatever parses is the encoding of what it parses to: there is one encoding per frame. */
  lemma EncodeParsed(encoded: seq<u8>)
    requires ParseFrame(encoded).Ok?
    ensures Encodable(ParseFrame(encoded).value) && EncodeFrame(ParseFrame(encoded).value) == encoded
  {
    hide AllProper, IsHeader, Header, HeaderError, ReadU16, ReadU32, ParseFields;
    PassingHeader(encoded);
    EncodeParsedBody(encoded[HEADER_SIZE..], 0, 0);
    var f := ParseFrame(encoded).value;
    HeaderUnique(encoded[..HEADER_SIZE], f.kind, f.sequence, ReadU32(encoded[16..20]));
    HeaderPasses(encoded, f.kind, f.sequence, ReadU32(encoded[16..20]));
    assert encoded == encoded[..HEADER_SIZE] + encoded[HEADER_SIZE..];
  }

  function Prepend(fields: seq<Field>, more: Option<seq<Field>>): Option<seq<Field>> {
    if more.None? then None else Some(fields + more.value)
  }

  /** One turn of the field loop. */
  lemma LoopStep(fields: seq<Field>, rest: seq<u8>, previous: u16)
    requires |rest| > 0 && |fields| < MAX_FIELDS
    ensures var field := ParseField(rest, previous);
            Prepend(fields, ParseFields(rest, previous, |fields|)) ==
              if field.None? then None
              else Prepend(fields + [field.value],
                           ParseFields(rest[8 + |field.value.value|..], field.value.id, |fields| + 1))
  {
    hide ParseField;
    var field := ParseField(rest, previous);
    if field.Some? {
      var more := ParseFields(rest[8 + |field.value.value|..], field.value.id, |fields| + 1);
      assert more.Some? ==> fields + ([field.value] + more.value) == fields + [field.value] + more.value;
    }
  }

  /** The field loop of `ParseFrame`, over an offset into the frame. */
  method ParseFieldBytes(encoded: seq<u8>) returns (r: Option<seq<Field>>)
    requires |encoded| >= HEADER_SIZE
    ensures r == ParseFields(encoded[HEADER_SIZE..], 0, 0)
  {
    hide ParseField, ParseFields;
    var fields: seq<Field>, offset, previous := [], HEADER_SIZE, 0;
    ghost var rest := encoded[HEADER_SIZE..];
    ghost var result := ParseFields(rest, 0, 0);
    assert result == Prepend(fields, result) by {
      assert result.Some? ==> fields + result.value == result.value;
    }
    LoopEnds(fields, previous);
    while offset < |encoded|
      invariant HEADER_SIZE <= offset <= |encoded| && rest == encoded[offset..] && |fields| <= MAX_FIELDS
      invariant result == Prepend(fields, ParseFields(rest, previous, |fields|))
    {
      if |fields| == MAX_FIELDS {
        LoopFull(rest, previous);
        return None;
      }
      LoopStep(fields, rest, previous);
      var field := ParseField(encoded[offset..], previous);
      if field.None? {
        return None;
      }
      fields := fields + [field.value];
      previous := field.value.id;
      offset := offset + 8 + |field.value.value|;
      rest := rest[8 + |field.value.value|..];
    }
    LoopEnds(fields, previous);
    return Some(fields);
  }

  lemma LoopEnds(fields: seq<Field>, previous: u16)
    ensures Prepend(fields, ParseFields([], previous, |fields|)) == Some(fields)
  {
    assert fields + [] == fields;
  }

  lemma LoopFull(rest: seq<u8>, previous: u16)
    requires |rest| > 0
    ensures ParseFields(rest, previous, MAX_FIELDS) == None
  {
  }

  /** `ParseFrame`. */
  method ParseFrameBytes(encoded: seq<u8>) returns (r: Result<Frame, PairingError>)
    ensures r == ParseFrame(encoded)
  {
    var error := HeaderError(encoded);
    if error.Some? {
      return Err(error.value);
    }
    if |encoded| != HEADER_SIZE + ReadU32(encoded[16..20]) {
      return Err(Malformed);
    }
    var fields := ParseFieldBytes(encoded);
    if fields.None? {
      return Err(Malformed);
    }
    return Ok(Frame(ReadU16(encoded[8..10]), ReadU32(encoded[12..16]), fields.value));
  }
}
