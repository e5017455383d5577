/** The discovery datagram: its parser, its encoder, and how they undo each other. */
module DiscoveryWire {
  import opened Common
  import opened BigEndian
  import opened Slices

  const HEADER_SIZE := 44
  const MAX_DATAGRAM_SIZE := 512
  const MAX_LABEL_BYTES := 96
  const TOKEN_SIZE := 16
  const MAGIC: seq<u8> := [0x58, 0x4E, 0x4E, 0x44]
  const MINIMUM_TTL := 5
  const MAXIMUM_TTL := 60
  const MAXIMUM_TLVS := 32
  const DISPLAY_LABEL_FIELD: u16 := 1

  datatype MessageKind = Announce | Withdraw

  datatype ParseError =
    | TooShort | TooLarge | BadMagic | UnsupportedVersion | LengthMismatch | BadHeaderLength | NonzeroFlags
    | NonzeroReserved | UnknownMessage | ZeroSequence | ZeroToken | InvalidAnnounce | InvalidWithdraw
    | TruncatedTlv | ReservedTlv | TlvOrder | DuplicateTlv | TooManyTlvs | UnknownCriticalTlv | InvalidLabel

  /** `DisplayLabelValidator::IsCanonical`. */
  type LabelValidator = seq<u8> -> bool

  datatype Advertisement = Advertisement(
    kind: MessageKind, sequence: u64, token: seq<u8>, port: u16, ttl: u16, name: seq<u8>, raw: seq<u8>)

  // ----- Parsing -----

  /** What the TLV at the start of `rest` does to the label, or the error it draws. */
  function ReadTlv(rest: seq<u8>, previous: u16, count: nat, name: seq<u8>, valid: LabelValidator)
    : (r: Result<(u16, seq<u8>, nat), ParseError>)
    requires |rest| > 0
    ensures r.Ok? ==> 4 <= r.value.2 <= |rest| && previous < r.value.0
  {
    if |rest| < 4 then Err(TruncatedTlv)
    else
      var wire, length := ReadU16(rest[..2]), ReadU16(rest[2..4]);
      var id, critical := wire % 0x8000, wire >= 0x8000;
      if length > |rest| - 4 then Err(TruncatedTlv)
      else if id == 0 then Err(ReservedTlv)
      else if id < previous then Err(TlvOrder)
      else if id == previous then Err(DuplicateTlv)
      else if count + 1 > MAXIMUM_TLVS then Err(TooManyTlvs)
      else
        var value := rest[4..4 + length];
        if id == DISPLAY_LABEL_FIELD && !critical then
          if |value| == 0 || |value| > MAX_LABEL_BYTES || !valid(value) then Err(InvalidLabel)
          else Ok((id, value, 4 + length))
        else if critical then Err(UnknownCriticalTlv)
        else Ok((id, name, 4 + length))
  }

  /** The TLV loop, as a function of the bytes left to read: the display label or an error. */
  function ReadTlvs(rest: seq<u8>, previous: u16, count: nat, name: seq<u8>, valid: LabelValidator)
    : (r: Result<seq<u8>, ParseError>)
    decreases |rest|
  {
    if |rest| == 0 then Ok(name)
    else
      match ReadTlv(rest, previous, count, name, valid)
      case Err(error) => Err(error)
      case Ok((id, name', size)) => ReadTlvs(rest[size..], id, count + 1, name', valid)
  }

  /** The checks on the fixed header that do not depend on the message. */
  function HeaderError(payload: seq<u8>): (r: Option<ParseError>)
    ensures r.None? ==> HEADER_SIZE <= |payload| <= MAX_DATAGRAM_SIZE
  {
    if |payload| < HEADER_SIZE then Some(TooShort)
    else if |payload| > MAX_DATAGRAM_SIZE then Some(TooLarge)
    else if payload[..4] != MAGIC then Some(BadMagic)
    else if payload[4] != 1 || payload[5] != 0 then Some(UnsupportedVersion)
    else if ReadU16(payload[8..10]) != |payload| then Some(LengthMismatch)
    else if ReadU16(payload[10..12]) != HEADER_SIZE then Some(BadHeaderLength)
    else if payload[7] != 0 then Some(NonzeroFlags)
    else if ReadU16(payload[42..44]) != 0 then Some(NonzeroReserved)
    else if ReadU16(payload[40..42]) != |payload| - HEADER_SIZE then Some(LengthMismatch)
    else if payload[6] != 1 && payload[6] != 2 then Some(UnknownMessage)
    else None
  }

  predicate AnnounceOk(port: u16, ttl: u16) {
    port != 0 && MINIMUM_TTL <= ttl <= MAXIMUM_TTL
  }

  /** The header values of a datagram whose fixed header passed. */
  function ReadHeader(payload: seq<u8>): (r: Result<Advertisement, ParseError>)
    requires HeaderError(payload).None?
    ensures r.Ok? ==> |r.value.token| == TOKEN_SIZE
  {
    var kind := if payload[6] == 1 then Announce else Withdraw;
    var sequence, token := ReadU64(payload[12..20]), payload[20..36];
    var port, ttl := ReadU16(payload[36..38]), ReadU16(payload[38..40]);
    if sequence == 0 then Err(ZeroSequence)
    else if AllZero(token) then Err(ZeroToken)
    else if kind == Announce && !AnnounceOk(port, ttl) then Err(InvalidAnnounce)
    else if kind == Withdraw && (port != 0 || ttl != 0 || |payload| != HEADER_SIZE) then Err(InvalidWithdraw)
    else Ok(Advertisement(kind, sequence, token, port, ttl, [], payload))
  }

  function Parse(payload: seq<u8>, valid: LabelValidator): (r: Result<Advertisement, ParseError>)
    ensures r.Ok? ==> |r.value.token| == TOKEN_SIZE && r.value.raw == payload && |payload| <= MAX_DATAGRAM_SIZE
  {
    var error := HeaderError(payload);
    if error.Some? then Err(error.value)
    else
      match ReadHeader(payload)
      case Err(error) => Err(error)
      case Ok(advertisement) =>
        match ReadTlvs(payload[HEADER_SIZE..], 0, 0, [], valid)
        case Err(error) => Err(error)
        case Ok(name) => Ok(advertisement.(name := name))
  }

  /** `ParseAdvertisement`, with its loop over an offset. */
  method ParseAdvertisement(payload: seq<u8>, valid: LabelValidator) returns (r: Result<Advertisement, ParseError>)
    ensures r == Parse(payload, valid)
  {
    var headerError := HeaderError(payload);
    if headerError.Some? {
      return Err(headerError.value);
    }
    var header := ReadHeader(payload);
    if header.Err? {
      return header;
    }
    var advertisement := header.value;
    var offset, previous, count := HEADER_SIZE, 0, 0;
    ghost var result := ReadTlvs(payload[HEADER_SIZE..], 0, 0, [], valid);
    ghost var rest := payload[HEADER_SIZE..];
    while offset < |payload|
      invariant HEADER_SIZE <= offset <= |payload| && rest == payload[offset..]
      invariant result == ReadTlvs(rest, previous, count, advertisement.name, valid)
      invariant advertisement == header.value.(name := advertisement.name)
    {
      var tlv := ReadTlv(payload[offset..], previous, count, advertisement.name, valid);
      if tlv.Err? {
        return Err(tlv.error);
      }
      previous, count := tlv.value.0, count + 1;
      advertisement := advertisement.(name := tlv.value.1);
      offset := offset + tlv.value.2;
      rest := rest[tlv.value.2..];
    }
    return Ok(advertisement);
  }

  // ----- Encoding -----

  function LabelTlv(name: seq<u8>): (bytes: seq<u8>)
    requires |name| <= MAX_LABEL_BYTES
    ensures |bytes| == if |name| == 0 then 0 else 4 + |name|
  {
    if |name| == 0 then [] else WriteU16(DISPLAY_LABEL_FIELD) + WriteU16(|name|) + name
  }

  predicate Encodable(kind: MessageKind, sequence: u64, token: seq<u8>, port: u16, ttl: u16, name: seq<u8>,
                      valid: LabelValidator)
  {
    && sequence != 0 && |token| == TOKEN_SIZE && !AllZero(token)
    && (kind == Announce ==> AnnounceOk(port, ttl) && (|name| != 0 ==> |name| <= MAX_LABEL_BYTES && valid(name)))
    && (kind == Withdraw ==> port == 0 && ttl == 0 && |name| == 0)
  }

  function Prefix(kind: MessageKind, tlvSize: u16): (bytes: seq<u8>)
    requires tlvSize <= 4 + MAX_LABEL_BYTES
    ensures |bytes| == 12
  {
    MAGIC + [1, 0, if kind == Announce then 1 else 2, 0] + WriteU16(HEADER_SIZE + tlvSize) + WriteU16(HEADER_SIZE)
  }

  function Suffix(port: u16, ttl: u16, tlvSize: u16): (bytes: seq<u8>)
    ensures |bytes| == 8
  {
    WriteU16(port) + WriteU16(ttl) + WriteU16(tlvSize) + WriteU16(0)
  }

  function Encode(kind: MessageKind, sequence: u64, token: seq<u8>, port: u16, ttl: u16,
                  name: seq<u8>): (bytes: seq<u8>)
    requires |token| == TOKEN_SIZE && |name| <= MAX_LABEL_BYTES
    ensures |bytes| == HEADER_SIZE + |LabelTlv(name)| <= MAX_DATAGRAM_SIZE
  {
    var tlvs := LabelTlv(name);
    Prefix(kind, |tlvs|) + WriteU64(sequence) + token + Suffix(port, ttl, |tlvs|) + tlvs
  }

  /** Write `data` at `offset`: one `std::copy`, `WriteU16` or `WriteU64`. */
  method Put(bytes: array<u8>, offset: nat, data: seq<u8>)
    requires offset + |data| <= bytes.Length
    modifies bytes
    ensures bytes[..offset + |data|] == old(bytes[..offset]) + data
  {
    for i := 0 to |data|
      invariant bytes[..offset] == old(bytes[..offset])
      invariant bytes[offset..offset + i] == data[..i]
    {
      bytes[offset + i] := data[i];
      assert bytes[offset..offset + i + 1] == bytes[offset..offset + i] + [data[i]];
    }
    assert bytes[..offset + |data|] == bytes[..offset] + bytes[offset..offset + |data|];
  }

  method PutHead(bytes: array<u8>, kind: MessageKind, sequence: u64, token: seq<u8>, tlvSize: u16)
    requires bytes.Length == MAX_DATAGRAM_SIZE && |token| == TOKEN_SIZE && tlvSize <= 4 + MAX_LABEL_BYTES
    modifies bytes
    ensures bytes[..36] == Prefix(kind, tlvSize) + WriteU64(sequence) + token
  {
    Put(bytes, 0, MAGIC);
    Put(bytes, 4, [1, 0, if kind == Announce then 1 else 2, 0]);
    Put(bytes, 8, WriteU16(HEADER_SIZE + tlvSize));
    Put(bytes, 10, WriteU16(HEADER_SIZE));
    assert bytes[..12] == Prefix(kind, tlvSize);
    Put(bytes, 12, WriteU64(sequence));
    Put(bytes, 20, token);
  }

  method PutSuffix(bytes: array<u8>, port: u16, ttl: u16, tlvSize: u16)
    requires bytes.Length == MAX_DATAGRAM_SIZE
    modifies bytes
    ensures bytes[..HEADER_SIZE] == old(bytes[..36]) + Suffix(port, ttl, tlvSize)
  {
    Put(bytes, 36, WriteU16(port));
    Put(bytes, 38, WriteU16(ttl));
    Put(bytes, 40, WriteU16(tlvSize));
    Put(bytes, 42, WriteU16(0));
  }

  method PutLabel(bytes: array<u8>, name: seq<u8>)
    requires bytes.Length == MAX_DATAGRAM_SIZE && |name| <= MAX_LABEL_BYTES
    modifies bytes
    ensures bytes[..HEADER_SIZE + |LabelTlv(name)|] == old(bytes[..HEADER_SIZE]) + LabelTlv(name)
  {
    hide WriteU16;
    if |name| != 0 {
      Put(bytes, HEADER_SIZE, WriteU16(DISPLAY_LABEL_FIELD));
      Put(bytes, HEADER_SIZE + 2, WriteU16(|name|));
      Put(bytes, HEADER_SIZE + 4, name);
    }
  }

  /** `EncodeAdvertisement`: the datagram is written field by field into a fixed buffer. */
  method EncodeAdvertisement(kind: MessageKind, sequence: u64, token: seq<u8>, port: u16, ttl: u16, name: seq<u8>,
                             valid: LabelValidator)
    returns (ok: bool, output: seq<u8>)
    requires |token| == TOKEN_SIZE
    ensures ok <==> Encodable(kind, sequence, token, port, ttl, name, valid)
    ensures ok ==> |name| <= MAX_LABEL_BYTES && output == Encode(kind, sequence, token, port, ttl, name)
  {
    output := [];
    if sequence == 0 || AllZero(token) {
      return false, output;
    }
    var tlvSize := 0;
    if kind == Announce {
      if !AnnounceOk(port, ttl) {
        return false, output;
      }
      if |name| != 0 {
        if |name| > MAX_LABEL_BYTES || !valid(name) {
          return false, output;
        }
        tlvSize := 4 + |name|;
      }
    } else if port != 0 || ttl != 0 || |name| != 0 {
      return false, output;
    }
    assert tlvSize == |LabelTlv(name)|;
    var bytes := new u8[MAX_DATAGRAM_SIZE];
    PutHead(bytes, kind, sequence, token, tlvSize);
    PutSuffix(bytes, port, ttl, tlvSize);
    PutLabel(bytes, name);
    return true, bytes[..HEADER_SIZE + tlvSize];
  }

  // ----- Round trips -----

  /** Where each field of an encoded datagram lies. */
  lemma EncodedLayout(kind: MessageKind, sequence: u64, token: seq<u8>, port: u16, ttl: u16, name: seq<u8>)
    requires |token| == TOKEN_SIZE && |name| <= MAX_LABEL_BYTES
    ensures var bytes := Encode(kind, sequence, token, port, ttl, name); var tlvs := LabelTlv(name);
            && bytes[..12] == Prefix(kind, |tlvs|) && bytes[12..20] == WriteU64(sequence) && bytes[20..36] == token
            && bytes[36..44] == Suffix(port, ttl, |tlvs|) && bytes[HEADER_SIZE..] == tlvs
  {
    hide Prefix, Suffix, LabelTlv, WriteU64;
    var tlvs := LabelTlv(name);
    var p, q, s := Prefix(kind, |tlvs|), WriteU64(sequence), Suffix(port, ttl, |tlvs|);
    Parts(p + q + token, s, tlvs);
    Parts(p + q, token, s + tlvs);
    Parts(p, q, token + s + tlvs);
    var bytes := Encode(kind, sequence, token, port, ttl, name);
    assert bytes == p + q + token + (s + tlvs) == p + q + (token + s + tlvs);
  }

  /** The first twelve bytes, as the parser reads them. */
  predicate IsPrefix(p: seq<u8>, kind: MessageKind, tlvSize: u16) {
    && |p| == 12 && p[..4] == MAGIC && p[4..8] == [1, 0, if kind == Announce then 1 else 2, 0]
    && ReadU16(p[8..10]) == HEADER_SIZE + tlvSize && ReadU16(p[10..12]) == HEADER_SIZE
  }

  /** The last eight header bytes, as the parser reads them. */
  predicate IsSuffix(s: seq<u8>, port: u16, ttl: u16, tlvSize: u16) {
    && |s| == 8 && ReadU16(s[..2]) == port && ReadU16(s[2..4]) == ttl
    && ReadU16(s[4..6]) == tlvSize && ReadU16(s[6..8]) == 0
  }

  lemma PrefixLayout(kind: MessageKind, tlvSize: u16)
    requires tlvSize <= 4 + MAX_LABEL_BYTES
    ensures IsPrefix(Prefix(kind, tlvSize), kind, tlvSize)
  {
    hide WriteU16, ReadU16;
    var p := Prefix(kind, tlvSize);
    var a, b := WriteU16(HEADER_SIZE + tlvSize), WriteU16(HEADER_SIZE);
    var flags: seq<u8> := [1, 0, if kind == Announce then 1 else 2, 0];
    Parts(MAGIC + flags, a, b);
    Parts(MAGIC, flags, a + b);
    assert p == MAGIC + flags + (a + b);
    assert p[10..12] == p[10..];
    ReadWriteU16(HEADER_SIZE + tlvSize);
    ReadWriteU16(HEADER_SIZE);
  }

  lemma SuffixLayout(port: u16, ttl: u16, tlvSize: u16)
    ensures IsSuffix(Suffix(port, ttl, tlvSize), port, ttl, tlvSize)
  {
    hide WriteU16, ReadU16;
    var s := Suffix(port, ttl, tlvSize);
    Parts(WriteU16(port) + WriteU16(ttl), WriteU16(tlvSize), WriteU16(0));
    Parts(WriteU16(port), WriteU16(ttl), WriteU16(tlvSize) + WriteU16(0));
    assert s == WriteU16(port) + WriteU16(ttl) + (WriteU16(tlvSize) + WriteU16(0));
    assert s[6..8] == s[6..];
    ReadWriteU16(port);
    ReadWriteU16(ttl);
    ReadWriteU16(tlvSize);
    ReadWriteU16(0);
  }

  lemma PrefixUnique(p: seq<u8>, kind: MessageKind, tlvSize: u16)
    requires tlvSize <= 4 + MAX_LABEL_BYTES && IsPrefix(p, kind, tlvSize)
    ensures p == Prefix(kind, tlvSize)
  {
    WriteReadU16(p[8..10]);
    WriteReadU16(p[10..12]);
    hide WriteU16, ReadU16;
    assert p == p[..4] + p[4..8] + p[8..10] + p[10..12];
  }

  lemma SuffixUnique(s: seq<u8>, port: u16, ttl: u16, tlvSize: u16)
    requires IsSuffix(s, port, ttl, tlvSize)
    ensures s == Suffix(port, ttl, tlvSize)
  {
    WriteReadU16(s[..2]);
    WriteReadU16(s[2..4]);
    WriteReadU16(s[4..6]);
    WriteReadU16(s[6..8]);
    hide WriteU16, ReadU16;
    assert s == s[..2] + s[2..4] + s[4..6] + s[6..8];
  }

  /** The parser's offsets, relative to the two parts of the header. */
  lemma HeaderSlices(payload: seq<u8>)
    requires |payload| >= HEADER_SIZE
    ensures var p, s := payload[..12], payload[36..44];
            && payload[..4] == p[..4] && payload[4..8] == p[4..8] && payload[8..10] == p[8..10]
            && payload[10..12] == p[10..12]
            && payload[36..38] == s[..2] && payload[38..40] == s[2..4] && payload[40..42] == s[4..6]
            && payload[42..44] == s[6..8]
  {
    SliceOfSlice(payload, 0, 12, 8, 10);
    SliceOfSlice(payload, 0, 12, 10, 12);
    SliceOfSlice(payload, 0, 12, 4, 8);
    SliceOfSlice(payload, 36, 44, 0, 2);
    SliceOfSlice(payload, 36, 44, 2, 4);
    SliceOfSlice(payload, 36, 44, 4, 6);
    SliceOfSlice(payload, 36, 44, 6, 8);
  }

  /** A datagram whose two header ends are those of a message passes the header checks. */
  lemma PartsPass(payload: seq<u8>, kind: MessageKind, port: u16, ttl: u16, tlvSize: u16)
    requires tlvSize <= 4 + MAX_LABEL_BYTES && |payload| == HEADER_SIZE + tlvSize
    requires IsPrefix(payload[..12], kind, tlvSize) && IsSuffix(payload[36..44], port, ttl, tlvSize)
    ensures HeaderError(payload).None? && payload[6] == (if kind == Announce then 1 else 2)
    ensures ReadU16(payload[36..38]) == port && ReadU16(payload[38..40]) == ttl
  {
    hide ReadU16, BigEndian.Decode;
    HeaderSlices(payload);
    var flags := payload[4..8];
    assert flags == [payload[4], payload[5], payload[6], payload[7]];
  }

  /** A datagram that passes the header checks has the header ends of its message. */
  lemma PassHasParts(payload: seq<u8>, tlvSize: u16)
    requires tlvSize <= 4 + MAX_LABEL_BYTES && |payload| == HEADER_SIZE + tlvSize && HeaderError(payload).None?
    ensures IsPrefix(payload[..12], if payload[6] == 1 then Announce else Withdraw, tlvSize)
    ensures IsSuffix(payload[36..44], ReadU16(payload[36..38]), ReadU16(payload[38..40]), tlvSize)
  {
    hide ReadU16, BigEndian.Decode;
    HeaderSlices(payload);
    var flags := payload[4..8];
    assert flags == [payload[4], payload[5], payload[6], payload[7]];
  }

  lemma ReadLabelTlv(name: seq<u8>, valid: LabelValidator)
    requires |name| <= MAX_LABEL_BYTES && (|name| != 0 ==> valid(name))
    ensures ReadTlvs(LabelTlv(name), 0, 0, [], valid) == Ok(name)
  {
    var tlv := LabelTlv(name);
    if |name| != 0 {
      ReadWriteU16(DISPLAY_LABEL_FIELD);
      ReadWriteU16(|name|);
      hide WriteU16, ReadU16;
      assert tlv[..2] == WriteU16(DISPLAY_LABEL_FIELD) && tlv[2..4] == WriteU16(|name|);
      assert tlv[4..4 + |name|] == name;
      assert tlv[4 + |name|..] == [];
      assert ReadTlv(tlv, 0, 0, [], valid) == Ok((1, name, 4 + |name|));
    }
  }

  /** Whatever the encoder produces, the parser returns with the same values. */
  lemma ParseEncoded(kind: MessageKind, sequence: u64, token: seq<u8>, port: u16, ttl: u16, name: seq<u8>,
                     valid: LabelValidator)
    requires Encodable(kind, sequence, token, port, ttl, name, valid)
    ensures var bytes := Encode(kind, sequence, token, port, ttl, name);
            Parse(bytes, valid) == Ok(Advertisement(kind, sequence, token, port, ttl, name, bytes))
  {
    var bytes := Encode(kind, sequence, token, port, ttl, name);
    EncodedLayout(kind, sequence, token, port, ttl, name);
    PrefixLayout(kind, |LabelTlv(name)|);
    SuffixLayout(port, ttl, |LabelTlv(name)|);
    PartsPass(bytes, kind, port, ttl, |LabelTlv(name)|);
    ReadLabelTlv(name, valid);
    ReadWriteU64(sequence);
    hide Encode, HeaderError, ReadTlvs, LabelTlv, ReadU16, ReadU64, WriteU64, Prefix, Suffix, IsPrefix, IsSuffix;
  }

  // A label that fills the whole TLV area was the only TLV.

  /** The label only ever grows out of TLVs that are themselves in the area. */
  lemma {:induction false} LabelFits(rest: seq<u8>, previous: u16, count: nat, name: seq<u8>, valid: LabelValidator)
    requires previous >= DISPLAY_LABEL_FIELD && ReadTlvs(rest, previous, count, name, valid).Ok?
    ensures ReadTlvs(rest, previous, count, name, valid) == Ok(name)
    decreases |rest|
  {
    if |rest| > 0 {
      var tlv := ReadTlv(rest, previous, count, name, valid).value;
      LabelFits(rest[tlv.2..], tlv.0, count + 1, tlv.1, valid);
    }
  }

  /** A TLV area no longer than the label read from its first TLV is that one TLV. */
  lemma FirstIsAll(rest: seq<u8>, tlv: (u16, seq<u8>, nat), valid: LabelValidator)
    requires |rest| > 0 && ReadTlv(rest, 0, 0, [], valid) == Ok(tlv)
    requires |tlv.1| <= MAX_LABEL_BYTES && |rest| == |LabelTlv(tlv.1)|
    ensures rest == LabelTlv(tlv.1)
  {
    WriteReadU16(rest[..2]);
    WriteReadU16(rest[2..4]);
    hide WriteU16, ReadU16;
    assert rest == rest[..2] + rest[2..4] + rest[4..];
  }

  lemma OnlyLabel(rest: seq<u8>, valid: LabelValidator)
    requires ReadTlvs(rest, 0, 0, [], valid).Ok?
    ensures var name := ReadTlvs(rest, 0, 0, [], valid).value;
            |name| <= MAX_LABEL_BYTES && (|name| != 0 ==> valid(name)) &&
            (|rest| == |LabelTlv(name)| ==> rest == LabelTlv(name))
  {
    hide LabelTlv;
    if |rest| > 0 {
      var tlv := ReadTlv(rest, 0, 0, [], valid).value;
      LabelFits(rest[tlv.2..], tlv.0, 1, tlv.1, valid);
      if |rest| == |LabelTlv(tlv.1)| {
        FirstIsAll(rest, tlv, valid);
      }
    } else {
      assert LabelTlv([]) == [];
    }
  }

  lemma ParsedEncodable(payload: seq<u8>, valid: LabelValidator)
    requires Parse(payload, valid).Ok?
    ensures var a := Parse(payload, valid).value; Encodable(a.kind, a.sequence, a.token, a.port, a.ttl, a.name, valid)
  {
    hide ReadTlv, LabelTlv, ReadU16, ReadU64;
    OnlyLabel(payload[HEADER_SIZE..], valid);
  }

  /** The header of an accepted datagram whose TLV area is its label. */
  lemma HeaderReencodes(payload: seq<u8>, valid: LabelValidator)
    requires Parse(payload, valid).Ok? && |Parse(payload, valid).value.name| <= MAX_LABEL_BYTES
    requires |payload| == HEADER_SIZE + |LabelTlv(Parse(payload, valid).value.name)|
    ensures var a := Parse(payload, valid).value; var tlvSize := |LabelTlv(a.name)|;
            && payload[..12] == Prefix(a.kind, tlvSize) && payload[12..20] == WriteU64(a.sequence)
            && payload[20..36] == a.token && payload[36..44] == Suffix(a.port, a.ttl, tlvSize)
  {
    hide ReadTlvs, LabelTlv, ReadU16, ReadU64, WriteU64, Prefix, Suffix, IsPrefix, IsSuffix;
    var a := Parse(payload, valid).value;
    var tlvSize := |LabelTlv(a.name)|;
    PassHasParts(payload, tlvSize);
    PrefixUnique(payload[..12], a.kind, tlvSize);
    SuffixUnique(payload[36..44], a.port, a.ttl, tlvSize);
    WriteReadU64(payload[12..20]);
  }

  lemma SizeDecides(payload: seq<u8>, valid: LabelValidator)
    requires Parse(payload, valid).Ok?
    ensures var a := Parse(payload, valid).value;
            && Encodable(a.kind, a.sequence, a.token, a.port, a.ttl, a.name, valid)
            && (Encode(a.kind, a.sequence, a.token, a.port, a.ttl, a.name) == payload <==>
                |payload| == HEADER_SIZE + |LabelTlv(a.name)|)
  {
    hide HeaderError, ReadTlvs, LabelTlv, ReadU16, ReadU64, WriteU64, Prefix, Suffix;
    var a := Parse(payload, valid).value;
    ParsedEncodable(payload, valid);
    OnlyLabel(payload[HEADER_SIZE..], valid);
    if |payload| == HEADER_SIZE + |LabelTlv(a.name)| {
      HeaderReencodes(payload, valid);
      assert payload == payload[..12] + payload[12..20] + payload[20..36] + payload[36..44] + payload[44..];
    }
  }

  /** The TLV area is empty, or one TLV with the label's id, not critical, fills it. */
  predicate OneLabelAtMost(area: seq<u8>) {
    |area| == 0 || (|area| >= 4 && ReadU16(area[..2]) == DISPLAY_LABEL_FIELD && ReadU16(area[2..4]) == |area| - 4)
  }

  lemma AreaDecides(area: seq<u8>, valid: LabelValidator)
    requires ReadTlvs(area, 0, 0, [], valid).Ok?
    ensures var name := ReadTlvs(area, 0, 0, [], valid).value;
            |name| <= MAX_LABEL_BYTES && (|area| == |LabelTlv(name)| <==> OneLabelAtMost(area))
  {
    OnlyLabel(area, valid);
    hide WriteU16, ReadU16;
    var name := ReadTlvs(area, 0, 0, [], valid).value;
    if |area| > 0 && |area| == |LabelTlv(name)| {
      ReadWriteU16(DISPLAY_LABEL_FIELD);
      ReadWriteU16(|name|);
      assert area[..2] == WriteU16(DISPLAY_LABEL_FIELD) && area[2..4] == WriteU16(|name|);
    }
    if |area| > 0 && OneLabelAtMost(area) {
      assert area[|area|..] == [];
      assert ReadTlv(area, 0, 0, [], valid) == Ok((DISPLAY_LABEL_FIELD, area[4..], |area|));
    }
  }

  /** An accepted datagram re-encodes to itself if and only if it carries no TLV besides one display label. */
  lemma EncodeParsed(payload: seq<u8>, valid: LabelValidator)
    requires Parse(payload, valid).Ok?
    ensures var a := Parse(payload, valid).value;
            && Encodable(a.kind, a.sequence, a.token, a.port, a.ttl, a.name, valid)
            && (Encode(a.kind, a.sequence, a.token, a.port, a.ttl, a.name) == payload <==>
                OneLabelAtMost(payload[HEADER_SIZE..]))
  {
    hide HeaderError, ReadTlvs, LabelTlv, ReadU16, OneLabelAtMost, Encode;
    SizeDecides(payload, valid);
    AreaDecides(payload[HEADER_SIZE..], valid);
  }

  // ----- A datagram that does not re-encode -----

  const TOKEN: seq<u8> := [1, 0, 0, 0, 0, 0, 0, 0, 0, 0, 0, 0, 0, 0, 0, 0]

  /** An announcement with one empty TLV that this program does not know. */
  const WITH_UNKNOWN: seq<u8> :=
    Prefix(Announce, 4) + WriteU64(1) + TOKEN + Suffix(4_242, 15, 4) + (WriteU16(2) + WriteU16(0))

  lemma UnknownArea(valid: LabelValidator)
    ensures ReadTlvs(WriteU16(2) + WriteU16(0), 0, 0, [], valid) == Ok([]) && !OneLabelAtMost(WriteU16(2) + WriteU16(0))
  {
    var area := WriteU16(2) + WriteU16(0);
    ReadWriteU16(2);
    ReadWriteU16(0);
    hide WriteU16, ReadU16;
    assert area[..2] == WriteU16(2) && area[2..4] == WriteU16(0) && area[4..] == [];
    assert ReadTlv(area, 0, 0, [], valid) == Ok((2, [], 4));
  }

  lemma UnknownLayout()
    ensures |WITH_UNKNOWN| == HEADER_SIZE + 4 && WITH_UNKNOWN[..12] == Prefix(Announce, 4)
    ensures WITH_UNKNOWN[12..20] == WriteU64(1) && WITH_UNKNOWN[20..36] == TOKEN
    ensures WITH_UNKNOWN[36..44] == Suffix(4_242, 15, 4) && WITH_UNKNOWN[HEADER_SIZE..] == WriteU16(2) + WriteU16(0)
  {
    hide Prefix, Suffix, WriteU64, WriteU16;
    var p, q, s, t := Prefix(Announce, 4), WriteU64(1), Suffix(4_242, 15, 4), WriteU16(2) + WriteU16(0);
    Parts(p + q + TOKEN, s, t);
    Parts(p + q, TOKEN, s + t);
    Parts(p, q, TOKEN + s + t);
    assert WITH_UNKNOWN == p + q + TOKEN + (s + t) == p + q + (TOKEN + s + t);
  }

  /** It is accepted, and comes out without the TLV. */
  lemma UnknownIsLost(valid: LabelValidator)
    ensures Parse(WITH_UNKNOWN, valid) == Ok(Advertisement(Announce, 1, TOKEN, 4_242, 15, [], WITH_UNKNOWN))
    ensures Encode(Announce, 1, TOKEN, 4_242, 15, []) != WITH_UNKNOWN
  {
    hide HeaderError, ReadTlvs, ReadU16, ReadU64, WriteU64, WriteU16, Prefix, Suffix, IsPrefix, IsSuffix,
      OneLabelAtMost;
    assert TOKEN[0] == 1;
    UnknownLayout();
    UnknownArea(valid);
    PrefixLayout(Announce, 4);
    SuffixLayout(4_242, 15, 4);
    ReadWriteU64(1);
    PartsPass(WITH_UNKNOWN, Announce, 4_242, 15, 4);
    EncodeParsed(WITH_UNKNOWN, valid);
  }
}
