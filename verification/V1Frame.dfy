/** Message types, schemas and the frame envelope of the v1 protocol. */
module V1Frame {
  import opened Common
  import opened BigEndian
  import opened Negotiating
  import opened V1Tlv

  const FIXED_HEADER_LENGTH := 28
  const MAX_HEADER_LENGTH := 256
  const MAX_BODY_LENGTH := 1_048_576
  const MAX_CHUNK_DATA := 1_048_000
  const MAGIC: seq<u8> := [0x58, 0x4E, 0x4E, 0x54]

  datatype MessageType =
    | Hello | Negotiate | NegotiateAck | Error | Ping | Pong | GoAway | TransportFinished
    | TransferOffer | ManifestEntry | ManifestEnd | TransferAccept | TransferReject
    | FileBegin | FileChunk | ChunkAck | FileEnd | FileCommit
    | TransferComplete | TransferCompleteAck | Cancel | CancelAck
    | ResumeRequest | ResumeState | ResumeEnd

  function TypeOfCode(code: u16): (r: Option<MessageType>) {
    if code == 0x0001 then Some(Hello)
    else if code == 0x0002 then Some(Negotiate)
    else if code == 0x0003 then Some(NegotiateAck)
    else if code == 0x0004 then Some(Error)
    else if code == 0x0005 then Some(Ping)
    else if code == 0x0006 then Some(Pong)
    else if code == 0x0007 then Some(GoAway)
    else if code == 0x0008 then Some(TransportFinished)
    else if code == 0x0100 then Some(TransferOffer)
    else if code == 0x0101 then Some(ManifestEntry)
    else if code == 0x0102 then Some(ManifestEnd)
    else if code == 0x0103 then Some(TransferAccept)
    else if code == 0x0104 then Some(TransferReject)
    else if code == 0x0110 then Some(FileBegin)
    else if code == 0x0111 then Some(FileChunk)
    else if code == 0x0112 then Some(ChunkAck)
    else if code == 0x0113 then Some(FileEnd)
    else if code == 0x0114 then Some(FileCommit)
    else if code == 0x0120 then Some(TransferComplete)
    else if code == 0x0121 then Some(TransferCompleteAck)
    else if code == 0x0130 then Some(Cancel)
    else if code == 0x0131 then Some(CancelAck)
    else if code == 0x0140 then Some(ResumeRequest)
    else if code == 0x0141 then Some(ResumeState)
    else if code == 0x0142 then Some(ResumeEnd)
    else None
  }

  predicate IsConnectionMessage(t: MessageType) {
    t.Hello? || t.Negotiate? || t.NegotiateAck? || t.Ping? || t.Pong? || t.GoAway? || t.TransportFinished?
  }

  /** Types from 0x0100 on. */
  predicate IsTransferMessage(t: MessageType) {
    !IsConnectionMessage(t) && !t.Error?
  }

  function Need(id: u16, wire: u8, repeated: bool := false, minimum: u32 := 0, maximum: u32 := U32_MAX): FieldRule {
    FieldRule(id, wire, Required, repeated, minimum, maximum)
  }

  function May(id: u16, wire: u8, minimum: u32 := 0, maximum: u32 := U32_MAX): FieldRule {
    FieldRule(id, wire, Optional, false, minimum, maximum)
  }

  function When(id: u16, wire: u8, minimum: u32 := 0, maximum: u32 := U32_MAX): FieldRule {
    FieldRule(id, wire, Conditional, false, minimum, maximum)
  }

  const HELLO_SCHEMA := [
    Need(1, U16), Need(2, U16), Need(3, U16), Need(4, U16), Need(5, U8),
    Need(6, U32, true), Need(7, U32, true), Need(8, U32), Need(9, U32), Need(10, U16)]

  const NEGOTIATE_SCHEMA := [Need(1, U16), Need(2, U16), Need(3, U32, true), Need(4, U32), Need(5, U32), Need(6, U16)]

  const FINISHED_SCHEMA := [Need(1, U8), Need(2, BYTES, false, 1, 64)]

  const PING_SCHEMA := [Need(1, U64)]

  function SchemaFor(t: MessageType): seq<FieldRule> {
    match t
    case Hello => HELLO_SCHEMA
    case Negotiate | NegotiateAck => NEGOTIATE_SCHEMA
    case Error => [Need(1, U16), Need(2, BOOL), May(3, BOOL), May(4, U64), May(5, U32), May(6, UTF8, 0, 256)]
    case Ping | Pong => PING_SCHEMA
    case GoAway => [Need(1, U16), May(2, U32)]
    case TransportFinished => FINISHED_SCHEMA
    case TransferOffer =>
      [Need(1, BYTES, false, 16, 16), Need(2, U32), Need(3, U64), Need(4, BYTES, false, 16, 64), May(5, UTF8, 1, 255)]
    case ManifestEntry =>
      [Need(1, BYTES, false, 16, 16), Need(2, U32), Need(3, U8), Need(4, UTF8, false, 1, 1024), Need(5, U64),
       When(6, BYTES, 16, 64), May(7, U64)]
    case ManifestEnd => [Need(1, BYTES, false, 16, 16), Need(2, U32), Need(3, U64), Need(4, BYTES, false, 16, 64)]
    case TransferAccept =>
      [Need(1, BYTES, false, 16, 16), Need(2, U32), Need(3, U32), When(4, BYTES, 16, 256), When(5, U32)]
    case TransferReject => [Need(1, BYTES, false, 16, 16), Need(2, U16), Need(3, BOOL), May(4, U32),
                            May(5, UTF8, 0, 256)]
    case FileBegin => [Need(1, BYTES, false, 16, 16), Need(2, U32), Need(3, U64), Need(4, U32)]
    case FileChunk =>
      [Need(1, BYTES, false, 16, 16), Need(2, U32), Need(3, U64), Need(4, BYTES, false, 1, MAX_CHUNK_DATA),
       Need(5, BYTES, false, 16, 64)]
    case ChunkAck => [Need(1, BYTES, false, 16, 16), Need(2, U32), Need(3, U64), Need(4, U32)]
    case FileEnd => [Need(1, BYTES, false, 16, 16), Need(2, U32), Need(3, U64), Need(4, BYTES, false, 16, 64)]
    case FileCommit => [Need(1, BYTES, false, 16, 16), Need(2, U32), Need(3, U64)]
    case TransferComplete | TransferCompleteAck => [Need(1, BYTES, false, 16, 16), Need(2, BYTES, false, 16, 64)]
    case Cancel => [Need(1, BYTES, false, 16, 16), Need(2, U16), May(3, UTF8, 0, 256)]
    case CancelAck => [Need(1, BYTES, false, 16, 16), Need(2, U16)]
    case ResumeRequest =>
      [Need(1, BYTES, false, 16, 16), Need(2, BYTES, false, 16, 64), Need(3, BYTES, false, 16, 256)]
    case ResumeState =>
      [Need(1, BYTES, false, 16, 16), Need(2, U32), Need(3, U64), Need(4, BOOL), When(5, BYTES, 16, 64)]
    case ResumeEnd => [Need(1, BYTES, false, 16, 16), Need(2, U32), Need(3, U16)]
  }

  datatype Frame = Frame(kind: MessageType, streamId: u32, messageId: u64, body: seq<u8>)

  /** The fixed-header checks of `ParseFrameHeader`, up to the header extensions. */
  function ParseFixedHeader(encoded: seq<u8>,
                            expected: Version): (r: Result<(nat, nat, MessageType, u32, u64), ErrorCode>)
    ensures r.Ok? ==> FIXED_HEADER_LENGTH <= r.value.0 <= |encoded| && r.value.0 <= MAX_HEADER_LENGTH
    ensures r.Ok? ==> r.value.4 != 0 && r.value.1 <= MAX_BODY_LENGTH
  {
    if |encoded| < FIXED_HEADER_LENGTH then Err(MalformedFrame)
    else if encoded[..4] != MAGIC then Err(MalformedFrame)
    else
      var headerLength := ReadU16(encoded[4..6]);
      var version := Version(encoded[6], encoded[7]);
      var code := ReadU16(encoded[8..10]);
      var flags := ReadU16(encoded[10..12]);
      var streamId := ReadU32(encoded[12..16]);
      var messageId := ReadU64(encoded[16..24]);
      var bodyLength := ReadU32(encoded[24..28]);
      if headerLength < FIXED_HEADER_LENGTH then Err(MalformedFrame)
      else if headerLength > MAX_HEADER_LENGTH then Err(FrameTooLarge)
      else if bodyLength > MAX_BODY_LENGTH then Err(FrameTooLarge)
      else if flags != 0 then Err(MalformedFrame)
      else if messageId == 0 then Err(MessageIdViolation)
      else if version != expected then Err(UnsupportedVersion)
      else if TypeOfCode(code).None? then Err(UnsupportedMessage)
      else if |encoded| < headerLength then Err(MalformedFrame)
      else Ok((headerLength, bodyLength, TypeOfCode(code).value, streamId, messageId))
  }

  /** `ParseFrameEnvelope`: the header, its extensions, the stream scope and the total length. */
  ghost function ParseEnvelope(encoded: seq<u8>, expected: Version): (r: Result<Frame, ErrorCode>)
  {
    match ParseFixedHeader(encoded, expected)
    case Err(error) => Err(error)
    case Ok((headerLength, bodyLength, kind, streamId, messageId)) =>
      match Parse(encoded[FIXED_HEADER_LENGTH..headerLength], [])
      case Err(error) => Err(error)
      case Ok(_) =>
        if IsConnectionMessage(kind) && streamId != 0 then Err(StateViolation)
        else if IsTransferMessage(kind) && streamId == 0 then Err(StateViolation)
        else if |encoded| != headerLength + bodyLength then Err(MalformedFrame)
        else Ok(Frame(kind, streamId, messageId, encoded[headerLength..]))
  }

  method ParseFrameEnvelope(encoded: seq<u8>, expected: Version) returns (r: Result<Frame, ErrorCode>)
    ensures r == ParseEnvelope(encoded, expected)
  {
    match ParseFixedHeader(encoded, expected)
    case Err(error) => return Err(error);
    case Ok((headerLength, bodyLength, kind, streamId, messageId)) =>
      var error, _ := ParseTlvs(encoded[FIXED_HEADER_LENGTH..headerLength], []);
      if error != NoError {
        return Err(error);
      }
      if IsConnectionMessage(kind) && streamId != 0 {
        return Err(StateViolation);
      }
      if IsTransferMessage(kind) && streamId == 0 {
        return Err(StateViolation);
      }
      if |encoded| != headerLength + bodyLength {
        return Err(MalformedFrame);
      }
      return Ok(Frame(kind, streamId, messageId, encoded[headerLength..]));
  }

  // ----- What a parsed body guarantees to the message handlers -----

  ghost predicate KnownField(f: Field, schema: seq<FieldRule>) {
    FindRule(schema, f.id).Some? && Conforms(f, schema)
  }

  /** Fields as `ParseTlvs` leaves them: known, conforming and with every required id present. */
  ghost predicate Typed(fields: seq<Field>, schema: seq<FieldRule>) {
    && |fields| <= MAX_FIELDS
    && HasRequired(schema, fields)
    && forall i :: 0 <= i < |fields| ==> KnownField(fields[i], schema)
  }

  lemma {:induction false} KnownConform(fields: seq<Field>, schema: seq<FieldRule>)
    requires forall i :: 0 <= i < |fields| ==> Conforms(fields[i], schema)
    ensures forall i :: 0 <= i < |Known(fields, schema)| ==> KnownField(Known(fields, schema)[i], schema)
  {
    if |fields| > 0 {
      KnownConform(fields[1..], schema);
      var known, tail := Known(fields, schema), Known(fields[1..], schema);
      if FindRule(schema, fields[0].id).Some? {
        assert KnownField(fields[0], schema);
        assert known == [fields[0]] + tail;
        assert forall i :: 0 < i < |known| ==> known[i] == tail[i - 1];
      } else {
        assert known == tail;
      }
    }
  }

  /** Acceptance implies presence: a run of the loop only ends well when the required ids are there. */
  lemma {:induction false} AcceptedHasRequired(data: seq<u8>, schema: seq<FieldRule>, count: nat, previous: Option<u16>,
                                               output: seq<Field>)
    requires ParseFrom(data, schema, count, previous, output).Ok?
    ensures HasRequired(schema, ParseFrom(data, schema, count, previous, output).value)
    decreases |data|
  {
    if |data| > 0 {
      var r := ParseField(data, schema, count, previous, output);
      ParseFromStep(data, schema, count, previous, output, r);
      AcceptedHasRequired(data[8 + |r.value.value|..], schema, count + 1, Some(r.value.id),
                          Accept(schema, output, r.value));
    }
  }

  /** A failed parse names an error. */
  lemma {:induction false} ParseErrors(data: seq<u8>, schema: seq<FieldRule>, count: nat, previous: Option<u16>,
                                       output: seq<Field>)
    ensures var r := ParseFrom(data, schema, count, previous, output); r.Err? ==> r.error != NoError
    decreases |data|
  {
    if |data| > 0 {
      var r := ParseField(data, schema, count, previous, output);
      ParseFromStep(data, schema, count, previous, output, r);
      if r.Ok? {
        ParseErrors(data[8 + |r.value.value|..], schema, count + 1, Some(r.value.id), Accept(schema, output, r.value));
      }
    }
  }

  lemma ParseEnvelopeError(encoded: seq<u8>, expected: Version)
    ensures var r := ParseEnvelope(encoded, expected); r.Err? ==> r.error != NoError
  {
    var h := ParseFixedHeader(encoded, expected);
    if h.Ok? {
      ParseErrors(encoded[FIXED_HEADER_LENGTH..h.value.0], [], 0, None, []);
    }
  }

  lemma ParsedIsTyped(data: seq<u8>, schema: seq<FieldRule>)
    requires Parse(data, schema).Ok?
    ensures Typed(Parse(data, schema).value, schema)
  {
    var fields := ParseThenPrint(data, schema);
    KnownConform(fields, schema);
    AcceptedHasRequired(data, schema, 0, None, []);
  }

  /** `FindFirst`: callable only where the field is known to be there. */
  function FindFirst(fields: seq<Field>, id: u16): (f: Field)
    requires Count(fields, id) > 0
    ensures f in fields && f.id == id
  {
    if fields[0].id == id then fields[0]
    else
      assert exists i :: 1 <= i < |fields| && fields[i].id == id;
      assert forall i :: 1 <= i < |fields| ==> fields[i] == fields[1..][i - 1];
      FindFirst(fields[1..], id)
  }

  /** `DecodeUnsigned`. */
  function DecodeUnsigned(f: Field): nat {
    Decode(f.value)
  }

  lemma FixedWidth(f: Field, schema: seq<FieldRule>)
    requires KnownField(f, schema)
    ensures var width := FixedWireLength(FindRule(schema, f.id).value.wire);
            width != 0 ==> DecodeUnsigned(f) < Pow256(width)
  {
    DecodeBound(f.value);
  }

  /** Schemas number their fields 1, 2, 3, ... */
  predicate Sequential(schema: seq<FieldRule>) {
    |schema| < 0x1_0000 && forall i :: 0 <= i < |schema| ==> schema[i].id == i + 1
  }

  lemma {:induction false} FindRuleFrom(schema: seq<FieldRule>, first: u16, i: nat)
    requires i < |schema| && first + |schema| <= 0x1_0000
    requires forall k :: 0 <= k < |schema| ==> schema[k].id == first + k
    ensures FindRule(schema, schema[i].id) == Some(schema[i])
  {
    if i > 0 {
      assert schema[1..][i - 1] == schema[i];
      FindRuleFrom(schema[1..], first + 1, i - 1);
    }
  }

  predicate IsRequired(schema: seq<FieldRule>, id: u16, wire: u8) {
    Sequential(schema) && 1 <= id <= |schema| && schema[id - 1].presence == Required && schema[id - 1].wire == wire
  }

  lemma RequiredField(fields: seq<Field>, schema: seq<FieldRule>, id: u16, wire: u8)
    requires Typed(fields, schema) && IsRequired(schema, id, wire)
    ensures Count(fields, id) > 0 && FindRule(schema, id) == Some(schema[id - 1])
  {
    FindRuleFrom(schema, 1, id - 1);
    assert schema[id - 1].id == id;
  }

  /** The number in the first field with the required `id`: the source's `DecodeUnsigned(*FindFirst(id))`. */
  function Number(fields: seq<Field>, schema: seq<FieldRule>, id: u16, wire: u8): (n: nat)
    requires Typed(fields, schema) && IsRequired(schema, id, wire) && FixedWireLength(wire) > 0
    ensures n < Pow256(FixedWireLength(wire))
  {
    RequiredField(fields, schema, id, wire);
    var f := FindFirst(fields, id);
    FixedWidth(f, schema);
    DecodeUnsigned(f)
  }

  function NumberU8(fields: seq<Field>, schema: seq<FieldRule>, id: u16): u8
    requires Typed(fields, schema) && IsRequired(schema, id, U8)
  {
    Widths(); Number(fields, schema, id, U8)
  }

  function NumberU16(fields: seq<Field>, schema: seq<FieldRule>, id: u16): u16
    requires Typed(fields, schema) && IsRequired(schema, id, U16)
  {
    Widths(); Number(fields, schema, id, U16)
  }

  function NumberU32(fields: seq<Field>, schema: seq<FieldRule>, id: u16): u32
    requires Typed(fields, schema) && IsRequired(schema, id, U32)
  {
    Widths(); Number(fields, schema, id, U32)
  }

  function NumberU64(fields: seq<Field>, schema: seq<FieldRule>, id: u16): u64
    requires Typed(fields, schema) && IsRequired(schema, id, U64)
  {
    Widths(); Number(fields, schema, id, U64)
  }

  /** The numbers of all fields with the repeated 32-bit `id`, in order: the loops that collect capabilities. */
  function Capabilities(fields: seq<Field>, schema: seq<FieldRule>, id: u16): (r: seq<u32>)
    requires forall i :: 0 <= i < |fields| ==> KnownField(fields[i], schema)
    requires IsRequired(schema, id, U32)
    ensures |r| <= |fields|
  {
    if |fields| == 0 then []
    else
      var front := Capabilities(fields[..|fields| - 1], schema, id);
      var last := fields[|fields| - 1];
      if last.id != id then front
      else
        FindRuleFrom(schema, 1, id - 1);
        FixedWidth(last, schema);
        Widths();
        front + [DecodeUnsigned(last)]
  }
}
