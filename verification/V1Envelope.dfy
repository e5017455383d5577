/** The v1 frame as a format: a reference encoding of header, extensions and body, and the
    proof that the parser accepts exactly its image. */
module V1Envelope {
  import opened Common
  import opened BigEndian
  import opened Slices
  import opened Negotiating
  import opened V1Tlv
  import opened V1Frame

  function CodeOf(kind: MessageType): u16 {
    match kind
    case Hello => 0x0001
    case Negotiate => 0x0002
    case NegotiateAck => 0x0003
    case Error => 0x0004
    case Ping => 0x0005
    case Pong => 0x0006
    case GoAway => 0x0007
    case TransportFinished => 0x0008
    case TransferOffer => 0x0100
    case ManifestEntry => 0x0101
    case ManifestEnd => 0x0102
    case TransferAccept => 0x0103
    case TransferReject => 0x0104
    case FileBegin => 0x0110
    case FileChunk => 0x0111
    case ChunkAck => 0x0112
    case FileEnd => 0x0113
    case FileCommit => 0x0114
    case TransferComplete => 0x0120
    case TransferCompleteAck => 0x0121
    case Cancel => 0x0130
    case CancelAck => 0x0131
    case ResumeRequest => 0x0140
    case ResumeState => 0x0141
    case ResumeEnd => 0x0142
  }

  lemma CodesMatch(kind: MessageType, code: u16)
    ensures TypeOfCode(code) == Some(kind) <==> code == CodeOf(kind)
  {
  }

  /** Connection messages on stream zero, transfer messages on another, errors on either. */
  predicate OnItsStream(kind: MessageType, streamId: u32) {
    (IsConnectionMessage(kind) ==> streamId == 0) && (IsTransferMessage(kind) ==> streamId != 0)
  }

  predicate Sendable(f: Frame, extensions: seq<u8>) {
    && f.messageId != 0 && |f.body| <= MAX_BODY_LENGTH && |extensions| <= MAX_HEADER_LENGTH - FIXED_HEADER_LENGTH
    && OnItsStream(f.kind, f.streamId)
  }

  function Start(version: Version, extensionLength: nat): (bytes: seq<u8>)
    requires extensionLength <= MAX_HEADER_LENGTH - FIXED_HEADER_LENGTH
    ensures |bytes| == 8
  {
    MAGIC + WriteU16(FIXED_HEADER_LENGTH + extensionLength) + [version.major, version.minor]
  }

  function Middle(kind: MessageType, streamId: u32): (bytes: seq<u8>)
    ensures |bytes| == 8
  {
    WriteU16(CodeOf(kind)) + WriteU16(0) + WriteU32(streamId)
  }

  function End(messageId: u64, bodyLength: u32): (bytes: seq<u8>)
    ensures |bytes| == 12
  {
    WriteU64(messageId) + WriteU32(bodyLength)
  }

  function EncodeFrame(f: Frame, version: Version, extensions: seq<u8>): (bytes: seq<u8>)
    requires Sendable(f, extensions)
    ensures |bytes| == FIXED_HEADER_LENGTH + |extensions| + |f.body|
  {
    Start(version, |extensions|) + Middle(f.kind, f.streamId) + End(f.messageId, |f.body|) + extensions + f.body
  }

  // ----- The three parts of the fixed header, as the parser reads them -----

  predicate IsStart(s: seq<u8>, version: Version, extensionLength: nat) {
    |s| == 8 && s[..4] == MAGIC && ReadU16(s[4..6]) == FIXED_HEADER_LENGTH + extensionLength && s[6] == version.major
      && s[7] == version.minor
  }

  predicate IsMiddle(s: seq<u8>, kind: MessageType, streamId: u32) {
    |s| == 8 && ReadU16(s[..2]) == CodeOf(kind) && ReadU16(s[2..4]) == 0 && ReadU32(s[4..8]) == streamId
  }

  predicate IsEnd(s: seq<u8>, messageId: u64, bodyLength: u32) {
    |s| == 12 && ReadU64(s[..8]) == messageId && ReadU32(s[8..12]) == bodyLength
  }

  lemma StartIsExact(s: seq<u8>, version: Version, extensionLength: nat)
    requires extensionLength <= MAX_HEADER_LENGTH - FIXED_HEADER_LENGTH
    ensures IsStart(s, version, extensionLength) <==> s == Start(version, extensionLength)
  {
    hide ReadU16, WriteU16;
    var a := WriteU16(FIXED_HEADER_LENGTH + extensionLength);
    ReadWriteU16(FIXED_HEADER_LENGTH + extensionLength);
    Parts(MAGIC, a, [version.major, version.minor]);
    if IsStart(s, version, extensionLength) {
      WriteReadU16(s[4..6]);
      assert s == s[..4] + s[4..6] + [s[6], s[7]];
    }
  }

  lemma MiddleIsExact(s: seq<u8>, kind: MessageType, streamId: u32)
    ensures IsMiddle(s, kind, streamId) <==> s == Middle(kind, streamId)
  {
    hide ReadU16, WriteU16, ReadU32, WriteU32, CodeOf;
    ReadWriteU16(CodeOf(kind));
    ReadWriteU16(0);
    ReadWriteU32(streamId);
    Parts(WriteU16(CodeOf(kind)), WriteU16(0), WriteU32(streamId));
    if s == Middle(kind, streamId) {
      assert s[4..8] == s[4..];
    }
    if IsMiddle(s, kind, streamId) {
      WriteReadU16(s[..2]);
      WriteReadU16(s[2..4]);
      WriteReadU32(s[4..8]);
      assert s == s[..2] + s[2..4] + s[4..8];
    }
  }

  lemma EndIsExact(s: seq<u8>, messageId: u64, bodyLength: u32)
    ensures IsEnd(s, messageId, bodyLength) <==> s == End(messageId, bodyLength)
  {
    hide ReadU64, WriteU64, ReadU32, WriteU32;
    ReadWriteU64(messageId);
    ReadWriteU32(bodyLength);
    Parts(WriteU64(messageId), WriteU32(bodyLength), []);
    if s == End(messageId, bodyLength) {
      assert s == WriteU64(messageId) + WriteU32(bodyLength) + [];
    }
    if IsEnd(s, messageId, bodyLength) {
      WriteReadU64(s[..8]);
      WriteReadU32(s[8..12]);
      assert s == s[..8] + s[8..12];
    }
  }

  /** The parser's offsets, relative to the three parts. */
  lemma HeaderSlices(e: seq<u8>)
    requires |e| >= FIXED_HEADER_LENGTH
    ensures e[..8][..4] == e[..4] && e[..8][4..6] == e[4..6]
    ensures e[8..16][..2] == e[8..10] && e[8..16][2..4] == e[10..12] && e[8..16][4..8] == e[12..16]
    ensures e[16..28][..8] == e[16..24] && e[16..28][8..12] == e[24..28]
  {
    SliceOfSlice(e, 0, 8, 4, 6);
    SliceOfSlice(e, 8, 16, 0, 2);
    SliceOfSlice(e, 8, 16, 2, 4);
    SliceOfSlice(e, 8, 16, 4, 8);
    SliceOfSlice(e, 16, 28, 0, 8);
    SliceOfSlice(e, 16, 28, 8, 12);
  }

  /** The fixed header passes exactly when its three parts are those of a frame of these values. */
  lemma HeaderPasses(e: seq<u8>, version: Version, headerLength: nat, bodyLength: nat, kind: MessageType, streamId: u32,
                     messageId: u64)
    ensures ParseFixedHeader(e, version) == Ok((headerLength, bodyLength, kind, streamId, messageId)) <==>
            && FIXED_HEADER_LENGTH <= headerLength <= MAX_HEADER_LENGTH && headerLength <= |e| && messageId != 0
            && bodyLength <= MAX_BODY_LENGTH
            && IsStart(e[..8], version, headerLength - FIXED_HEADER_LENGTH) && IsMiddle(e[8..16], kind, streamId)
            && IsEnd(e[16..28], messageId, bodyLength)
  {
    hide ReadU16, ReadU32, ReadU64, TypeOfCode, CodeOf;
    if |e| >= FIXED_HEADER_LENGTH {
      HeaderSlices(e);
      CodesMatch(kind, ReadU16(e[8..10]));
    }
  }

  /** Where each part of an encoded frame lies. */
  lemma EncodedLayout(f: Frame, version: Version, extensions: seq<u8>)
    requires Sendable(f, extensions)
    ensures var e := EncodeFrame(f, version, extensions); var n := FIXED_HEADER_LENGTH + |extensions|;
            && e[..8] == Start(version, |extensions|) && e[8..16] == Middle(f.kind, f.streamId)
            && e[16..28] == End(f.messageId, |f.body|) && e[28..n] == extensions && e[n..] == f.body
  {
    hide Start, Middle, End;
    var a, b, c := Start(version, |extensions|), Middle(f.kind, f.streamId), End(f.messageId, |f.body|);
    var e := EncodeFrame(f, version, extensions);
    Parts(a, b, c);
    Parts(a + b + c, extensions, f.body);
    SliceOfSlice(e, 0, 28, 0, 8);
    SliceOfSlice(e, 0, 28, 8, 16);
    SliceOfSlice(e, 0, 28, 16, 28);
    assert (a + b + c)[16..28] == (a + b + c)[16..];
  }

  /** Every frame that may be sent, with any extension fields, is accepted with its own values. */
  lemma EncodedIsAccepted(f: Frame, version: Version, extensions: seq<Field>)
    requires Canonical(extensions, []) && Sendable(f, EncodeFields(extensions))
    ensures ParseEnvelope(EncodeFrame(f, version, EncodeFields(extensions)), version) == Ok(f)
  {
    var bytes := EncodeFields(extensions);
    hide EncodeFields, ParseFixedHeader, EncodeFrame, Parse, Start, Middle, End, IsStart, IsMiddle, IsEnd;
    var e := EncodeFrame(f, version, bytes);
    EncodedLayout(f, version, bytes);
    StartIsExact(e[..8], version, |bytes|);
    MiddleIsExact(e[8..16], f.kind, f.streamId);
    EndIsExact(e[16..28], f.messageId, |f.body|);
    HeaderPasses(e, version, FIXED_HEADER_LENGTH + |bytes|, |f.body|, f.kind, f.streamId, f.messageId);
    PrintThenParse(extensions, []);
  }

  /** Whatever is accepted is the encoding of the frame that comes out, with canonical extension fields. */
  lemma AcceptedIsEncoded(e: seq<u8>, version: Version) returns (extensions: seq<Field>)
    requires ParseEnvelope(e, version).Ok?
    ensures Canonical(extensions, []) && Sendable(ParseEnvelope(e, version).value, EncodeFields(extensions))
    ensures EncodeFrame(ParseEnvelope(e, version).value, version, EncodeFields(extensions)) == e
  {
    hide EncodeFields, ParseFixedHeader, Parse, Canonical, Start, Middle, End, IsStart, IsMiddle, IsEnd;
    var f := ParseEnvelope(e, version).value;
    var (headerLength, bodyLength, kind, streamId, messageId) := ParseFixedHeader(e, version).value;
    HeaderPasses(e, version, headerLength, bodyLength, kind, streamId, messageId);
    StartIsExact(e[..8], version, headerLength - FIXED_HEADER_LENGTH);
    MiddleIsExact(e[8..16], kind, streamId);
    EndIsExact(e[16..28], messageId, bodyLength);
    extensions := ParseThenPrint(e[FIXED_HEADER_LENGTH..headerLength], []);
    assert e == e[..8] + e[8..16] + e[16..28] + e[28..headerLength] + e[headerLength..];
  }
}
