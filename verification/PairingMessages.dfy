/** The messages of pairing: offers, selection and confirmations, and their frames. */
module PairingMessages {
  import opened Common
  import opened BigEndian
  import opened Slices
  import opened Negotiating
  import opened PairingWire
  import Tlv = V1Tlv

  const SECURITY_PROFILE: u16 := 1
  const BASE_TRANSFER: u32 := 0x0001_0001
  const RESUME: u32 := 0x0002_0001
  const PARALLEL_FILES: u32 := 0x0003_0001
  const MAX_CAPABILITIES := 256

  type Bytes32 = b: seq<u8> | |b| == 32
    witness [0, 0, 0, 0, 0, 0, 0, 0, 0, 0, 0, 0, 0, 0, 0, 0, 0, 0, 0, 0, 0, 0, 0, 0, 0, 0, 0, 0, 0, 0, 0, 0]

  datatype Role = Initiator | Responder

  function Opposite(role: Role): Role {
    if role == Initiator then Responder else Initiator
  }

  function RoleCode(role: Role): u8 {
    if role == Initiator then 1 else 2
  }

  datatype Limits = Limits(maxBody: u32, maxInFlight: u32, maxStreams: u16)

  datatype Offer = Offer(minimum: Version, maximum: Version, offered: seq<u32>, required: seq<u32>, limits: Limits)

  datatype Hello = Hello(role: Role, nonce: Bytes32, key: Bytes32, offer: Offer)

  datatype Selection = Selection(version: Version, capabilities: seq<u32>, limits: Limits)

  datatype Decision = Reject | Confirm

  function DecisionCode(decision: Decision): u8 {
    if decision == Reject then 0 else 1
  }

  /** `ConfirmationValue`: the context digest with sender and decision, and its authenticator. */
  datatype Confirmation = Confirmation(message: seq<u8>, authenticator: Bytes32)

  // ----- Offers and selection -----

  /** Nonempty, increasing, and no two versions of one capability. */
  predicate CanonicalCapabilities(s: seq<u32>) {
    && 0 < |s| <= MAX_CAPABILITIES && Increasing(s)
    && forall i :: 1 <= i < |s| ==> s[i - 1] / 0x1_0000 != s[i] / 0x1_0000
  }

  predicate KnownCapability(c: u32) {
    c == BASE_TRANSFER || c == RESUME || c == PARALLEL_FILES
  }

  predicate LimitsOk(limits: Limits) {
    8_192 <= limits.maxBody <= 1_048_576 && 1_048_576 <= limits.maxInFlight <= 67_108_864
      && 1 <= limits.maxStreams <= 32
  }

  /** `ValidateOffer`. */
  predicate OfferOk(offer: Offer) {
    && offer.minimum.major != 0 && offer.maximum.major != 0 && !VersionLess(offer.maximum, offer.minimum)
    && CanonicalCapabilities(offer.offered) && CanonicalCapabilities(offer.required)
    && (forall c :: c in offer.required ==> c in offer.offered)
    && BASE_TRANSFER in offer.offered && BASE_TRANSFER in offer.required && LimitsOk(offer.limits)
    && forall c :: c in offer.required ==> KnownCapability(c)
  }

  function SmallerLimits(a: Limits, b: Limits): Limits {
    Limits(Min(a.maxBody, b.maxBody), Min(a.maxInFlight, b.maxInFlight), Min(a.maxStreams, b.maxStreams))
  }

  /** `Select`: what an initiator's and a responder's offer come to. */
  function Select(initiator: Offer, responder: Offer): (r: Result<Selection, PairingError>)
    ensures r.Ok? ==> CanonicalSelection(initiator, responder, r.value)
  {
    if !OfferOk(initiator) || !OfferOk(responder) then Err(Malformed)
    else
      var minimum := VersionMaximum(initiator.minimum, responder.minimum);
      var maximum := VersionMinimum(initiator.maximum, responder.maximum);
      var shared := Shared(initiator.offered, responder.offered);
      if VersionLess(maximum, minimum) then Err(UnsupportedVersion)
      else if (exists c :: c in initiator.required && c !in shared)
        || (exists c :: c in responder.required && c !in shared)
              || BASE_TRANSFER !in shared then Err(Malformed)
      else Ok(Selection(maximum, shared, SmallerLimits(initiator.limits, responder.limits)))
  }

  /** The highest version both accept, the shared capabilities with every required one, the smaller limits. */
  ghost predicate CanonicalSelection(initiator: Offer, responder: Offer, s: Selection) {
    && InRange(s.version, initiator.minimum, initiator.maximum)
    && InRange(s.version, responder.minimum, responder.maximum)
    && (s.version == initiator.maximum || s.version == responder.maximum)
    && (forall c :: c in s.capabilities <==> c in initiator.offered && c in responder.offered)
    && (forall c :: c in initiator.required || c in responder.required ==> c in s.capabilities)
    && s.limits == SmallerLimits(initiator.limits, responder.limits)
  }

  // ----- Field values -----

  function Words(s: seq<u32>): (bytes: seq<u8>)
    ensures |bytes| == 4 * |s|
  {
    if |s| == 0 then [] else Words(s[..|s| - 1]) + WriteU32(s[|s| - 1])
  }

  function ReadWords(bytes: seq<u8>): (s: seq<u32>)
    requires |bytes| % 4 == 0
  {
    if |bytes| == 0 then [] else ReadWords(bytes[..|bytes| - 4]) + [ReadU32(bytes[|bytes| - 4..])]
  }

  lemma {:induction false} ReadWrittenWords(s: seq<u32>)
    ensures ReadWords(Words(s)) == s
  {
    if |s| > 0 {
      var front, last := s[..|s| - 1], s[|s| - 1];
      ReadWrittenWords(front);
      ReadWriteU32(last);
      hide ReadU32, WriteU32;
      var bytes := Words(s);
      assert bytes[..|bytes| - 4] == Words(front) && bytes[|bytes| - 4..] == WriteU32(last);
    }
  }

  function EncodeCapabilities(s: seq<u32>): (bytes: seq<u8>)
    requires |s| <= MAX_CAPABILITIES
    ensures |bytes| == 2 + 4 * |s|
  {
    WriteU16(|s|) + Words(s)
  }

  function DecodeCapabilities(bytes: seq<u8>): (r: Option<seq<u32>>)
    ensures r.Some? ==> CanonicalCapabilities(r.value)
  {
    if |bytes| < 2 then None
    else
      var count := ReadU16(bytes[..2]);
      if count == 0 || count > MAX_CAPABILITIES || |bytes| != 2 + count * 4 then None
      else
        var s := ReadWords(bytes[2..]);
        if CanonicalCapabilities(s) then Some(s) else None
  }

  lemma DecodeEncodedCapabilities(s: seq<u32>)
    requires |s| <= MAX_CAPABILITIES
    ensures DecodeCapabilities(EncodeCapabilities(s)) == if CanonicalCapabilities(s) then Some(s) else None
  {
    var bytes := EncodeCapabilities(s);
    ReadWriteU16(|s|);
    ReadWrittenWords(s);
    hide ReadU16, WriteU16, ReadWords, Words;
    assert bytes[..2] == WriteU16(|s|) && bytes[2..] == Words(s);
  }

  function EncodeVersions(minimum: Version, maximum: Version): seq<u8> {
    [minimum.major, minimum.minor, maximum.major, maximum.minor]
  }

  function EncodeLimits(limits: Limits): (bytes: seq<u8>)
    ensures |bytes| == 10
  {
    WriteU32(limits.maxBody) + WriteU32(limits.maxInFlight) + WriteU16(limits.maxStreams)
  }

  function DecodeLimits(bytes: seq<u8>): Limits
    requires |bytes| == 10
  {
    Limits(ReadU32(bytes[..4]), ReadU32(bytes[4..8]), ReadU16(bytes[8..10]))
  }

  lemma DecodeEncodedLimits(limits: Limits)
    ensures DecodeLimits(EncodeLimits(limits)) == limits
  {
    ReadWriteU32(limits.maxBody);
    ReadWriteU32(limits.maxInFlight);
    ReadWriteU16(limits.maxStreams);
    hide ReadU16, WriteU16, ReadU32, WriteU32;
    var bytes := EncodeLimits(limits);
    assert bytes[..4] == WriteU32(limits.maxBody) && bytes[4..8] == WriteU32(limits.maxInFlight);
    assert bytes[8..10] == WriteU16(limits.maxStreams);
  }

  // ----- Frames of messages -----

  predicate HasFields(fields: seq<Field>, types: seq<u8>) {
    |fields| == |types| && forall i :: 0 <= i < |fields| ==> fields[i].id == i + 1 && fields[i].wire == types[i]
  }

  const HELLO_TYPES: seq<u8> := [Tlv.U8, Tlv.BYTES, Tlv.BYTES, Tlv.U16, Tlv.BYTES, Tlv.BYTES, Tlv.BYTES, Tlv.BYTES]

  function HelloFields(h: Hello): seq<Field>
    requires |h.offer.offered| <= MAX_CAPABILITIES && |h.offer.required| <= MAX_CAPABILITIES
  {
    [ Field(1, Tlv.U8, [RoleCode(h.role)]),
      Field(2, Tlv.BYTES, h.nonce),
      Field(3, Tlv.BYTES, h.key),
      Field(4, Tlv.U16, WriteU16(SECURITY_PROFILE)),
      Field(5, Tlv.BYTES, EncodeVersions(h.offer.minimum, h.offer.maximum)),
      Field(6, Tlv.BYTES, EncodeCapabilities(h.offer.offered)),
      Field(7, Tlv.BYTES, EncodeCapabilities(h.offer.required)),
      Field(8, Tlv.BYTES, EncodeLimits(h.offer.limits)) ]
  }

  /** `DecodeHello`; field values are numbered as in the source. */
  function DecodeHello(f: Frame, role: Role, key: Bytes32, validKey: seq<u8> -> bool): Result<Hello, PairingError> {
    if f.kind != HELLO || !HasFields(f.fields, HELLO_TYPES) || |f.fields[0].value| != 1 || |f.fields[1].value| != 32
       || |f.fields[2].value| != 32 || |f.fields[3].value| != 2 || |f.fields[4].value| != 4
         || |f.fields[7].value| != 10 then
      Err(Malformed)
    else if f.fields[0].value[0] != RoleCode(role) then Err(RoleMismatch)
    else if ReadU16(f.fields[3].value) != SECURITY_PROFILE then Err(UnsupportedProfile)
    else if !validKey(f.fields[2].value) || f.fields[2].value != key then Err(CertificateRejected)
    else
      var v := f.fields[4].value;
      var offered, required := DecodeCapabilities(f.fields[5].value), DecodeCapabilities(f.fields[6].value);
      if offered.None? || required.None? then Err(Malformed)
      else
        var offer := Offer(Version(v[0], v[1]), Version(v[2], v[3]), offered.value, required.value,
                           DecodeLimits(f.fields[7].value));
        if !OfferOk(offer) then Err(Malformed) else Ok(Hello(role, f.fields[1].value, f.fields[2].value, offer))
  }

  const SELECTION_TYPES: seq<u8> := [Tlv.BYTES, Tlv.BYTES, Tlv.BYTES]

  function SelectionFields(s: Selection): seq<Field>
    requires |s.capabilities| <= MAX_CAPABILITIES
  {
    [ Field(1, Tlv.BYTES, [s.version.major, s.version.minor]),
      Field(2, Tlv.BYTES, EncodeCapabilities(s.capabilities)),
      Field(3, Tlv.BYTES, EncodeLimits(s.limits)) ]
  }

  function DecodeSelection(f: Frame): Result<Selection, PairingError> {
    if (f.kind != SELECT && f.kind != SELECT_ACK) || !HasFields(f.fields, SELECTION_TYPES)
       || |f.fields[0].value| != 2 || |f.fields[2].value| != 10 then Err(Malformed)
    else
      var capabilities := DecodeCapabilities(f.fields[1].value);
      if capabilities.None? then Err(Malformed)
      else
        Ok(Selection(Version(f.fields[0].value[0], f.fields[0].value[1]), capabilities.value,
                     DecodeLimits(f.fields[2].value)))
  }

  const DECISION_TYPES: seq<u8> := [Tlv.BYTES, Tlv.BYTES]

  function DecisionFields(c: Confirmation): seq<Field> {
    [Field(1, Tlv.BYTES, c.message), Field(2, Tlv.BYTES, c.authenticator)]
  }

  function DecodeDecision(f: Frame): Result<Confirmation, PairingError> {
    if f.kind != DECISION || !HasFields(f.fields, DECISION_TYPES) || |f.fields[0].value| != 34
       || |f.fields[1].value| != 32 then
      Err(Malformed)
    else Ok(Confirmation(f.fields[0].value, f.fields[1].value))
  }

  const ABORT_TYPES: seq<u8> := [Tlv.U16]

  function AbortFields(code: u16): seq<Field> {
    [Field(1, Tlv.U16, WriteU16(code))]
  }

  function DecodeAbort(f: Frame): Result<u16, PairingError> {
    if f.kind != ABORT || !HasFields(f.fields, ABORT_TYPES) || |f.fields[0].value| != 2 then Err(Malformed)
    else
      var code := ReadU16(f.fields[0].value);
      if 1 <= code <= 4 then Ok(code) else Err(Malformed)
  }

  /** A hello decodes to what was encoded, if its role, key and offer are acceptable. */
  lemma DecodeEncodedHello(h: Hello, sequence: u32, role: Role, key: Bytes32, validKey: seq<u8> -> bool)
    requires |h.offer.offered| <= MAX_CAPABILITIES && |h.offer.required| <= MAX_CAPABILITIES
    ensures var r := DecodeHello(Frame(HELLO, sequence, HelloFields(h)), role, key, validKey);
            (r.Ok? <==> h.role == role && h.key == key && validKey(key) && OfferOk(h.offer)) && (r.Ok? ==> r.value == h)
  {
    hide ReadU16, WriteU16, DecodeCapabilities, EncodeCapabilities, DecodeLimits, EncodeLimits, OfferOk,
      CanonicalCapabilities;
    OfferCanonical(h.offer);
    DecodeEncodedCapabilities(h.offer.offered);
    DecodeEncodedCapabilities(h.offer.required);
    DecodeEncodedLimits(h.offer.limits);
    ReadWriteU16(SECURITY_PROFILE);
  }

  lemma OfferCanonical(offer: Offer)
    ensures OfferOk(offer) ==> CanonicalCapabilities(offer.offered) && CanonicalCapabilities(offer.required)
  {
  }

  lemma DecodeEncodedSelection(s: Selection, kind: u16, sequence: u32)
    requires CanonicalCapabilities(s.capabilities) && (kind == SELECT || kind == SELECT_ACK)
    ensures DecodeSelection(Frame(kind, sequence, SelectionFields(s))) == Ok(s)
  {
    DecodeEncodedCapabilities(s.capabilities);
    DecodeEncodedLimits(s.limits);
    hide DecodeCapabilities, EncodeCapabilities, DecodeLimits, EncodeLimits;
  }

  lemma DecodeEncodedDecision(c: Confirmation, sequence: u32)
    requires |c.message| == 34
    ensures DecodeDecision(Frame(DECISION, sequence, DecisionFields(c))) == Ok(c)
  {
  }

  // ----- Every message fits a frame -----

  /** Fields numbered from `base`, with values their wire types allow, are what the parser takes. */
  lemma {:induction false} NumberedProper(fields: seq<Field>, base: u16)
    requires base + |fields| <= 0xFFFF
    requires forall i :: 0 <= i < |fields| ==>
             Fits(fields[i]) && fields[i].id == base + i + 1 && IsKnownWireType(fields[i].wire)
    requires forall i :: 0 <= i < |fields| ==> FixedLength(fields[i].wire) != 0 ==>
             |fields[i].value| == FixedLength(fields[i].wire)
    ensures AllProper(fields, base)
    decreases |fields|
  {
    if |fields| > 0 {
      assert forall i :: 0 <= i < |fields| - 1 ==> fields[1..][i] == fields[i + 1];
      NumberedProper(fields[1..], base + 1);
    }
  }

  function BodySize(fields: seq<Field>): nat {
    if |fields| == 0 then 0 else BodySize(fields[..|fields| - 1]) + 8 + |fields[|fields| - 1].value|
  }

  lemma {:induction false} BodySizeHead(f: Field, rest: seq<Field>)
    ensures BodySize([f] + rest) == 8 + |f.value| + BodySize(rest)
  {
    if |rest| == 0 {
      assert [f] + rest == [f] && BodySize([f][..0]) == 0;
    } else {
      assert ([f] + rest)[..|rest|] == [f] + rest[..|rest| - 1];
      BodySizeHead(f, rest[..|rest| - 1]);
    }
  }

  lemma {:induction false} BodyLength(fields: seq<Field>)
    requires forall i :: 0 <= i < |fields| ==> Fits(fields[i])
    ensures |EncodeBody(fields)| == BodySize(fields)
  {
    if |fields| > 0 {
      assert forall i :: 0 <= i < |fields| - 1 ==> fields[1..][i] == fields[i + 1];
      BodyLength(fields[1..]);
      BodySizeHead(fields[0], fields[1..]);
      assert fields == [fields[0]] + fields[1..];
    }
  }

  /** A bound on the size of a body from bounds on its values. */
  lemma {:induction false} BodySizeBound(fields: seq<Field>, small: nat)
    requires forall i :: 0 <= i < |fields| ==> |fields[i].value| <= small
    ensures BodySize(fields) <= |fields| * (8 + small)
  {
    if |fields| > 0 {
      BodySizeBound(fields[..|fields| - 1], small);
    }
  }

  lemma HelloEncodable(h: Hello, sequence: u32)
    requires OfferOk(h.offer)
    ensures Encodable(Frame(HELLO, sequence, HelloFields(h)))
  {
    hide WriteU16, EncodeCapabilities, EncodeLimits, OfferOk, BodySize;
    OfferCanonical(h.offer);
    var fields := HelloFields(h);
    NumberedProper(fields, 0);
    BodyLength(fields);
    var front, back := fields[..5], fields[5..];
    BodySizeBound(front, 32);
    BodySizeBound(back, 1_026);
    BodySizeSplit(front, back);
    assert fields == front + back;
  }

  lemma {:induction false} BodySizeSplit(a: seq<Field>, b: seq<Field>)
    ensures BodySize(a + b) == BodySize(a) + BodySize(b)
  {
    if |b| == 0 {
      assert a + b == a;
    } else {
      assert (a + b)[..|a + b| - 1] == a + b[..|b| - 1];
      BodySizeSplit(a, b[..|b| - 1]);
    }
  }

  lemma SelectionEncodable(s: Selection, kind: u16, sequence: u32)
    requires |s.capabilities| <= MAX_CAPABILITIES && (kind == SELECT || kind == SELECT_ACK)
    ensures Encodable(Frame(kind, sequence, SelectionFields(s)))
  {
    hide EncodeCapabilities, EncodeLimits, BodySize;
    var fields := SelectionFields(s);
    NumberedProper(fields, 0);
    BodyLength(fields);
    BodySizeBound(fields, 1_026);
  }

  lemma DecisionEncodable(c: Confirmation, sequence: u32)
    requires |c.message| == 34
    ensures Encodable(Frame(DECISION, sequence, DecisionFields(c)))
  {
    hide BodySize;
    var fields := DecisionFields(c);
    NumberedProper(fields, 0);
    BodyLength(fields);
    BodySizeBound(fields, 34);
  }

  lemma AbortEncodable(code: u16, sequence: u32)
    ensures Encodable(Frame(ABORT, sequence, AbortFields(code)))
  {
    hide BodySize, WriteU16;
    var fields := AbortFields(code);
    NumberedProper(fields, 0);
    BodyLength(fields);
    BodySizeBound(fields, 2);
  }

  // ----- The selection is itself a canonical list -----

  lemma {:induction false} SharedShorter(a: seq<u32>, b: seq<u32>)
    ensures |Shared(a, b)| <= |a|
  {
    if |a| > 0 {
      SharedShorter(a[..|a| - 1], b);
    }
  }

  /** Increasing lists with distinct neighbours by upper half have distinct upper halves throughout. */
  lemma {:induction false} UpperHalvesDistinct(s: seq<u32>, i: nat, j: nat)
    requires CanonicalCapabilities(s) && i < j < |s|
    ensures s[i] / 0x1_0000 < s[j] / 0x1_0000
  {
    if i < j - 1 {
      UpperHalvesDistinct(s, i, j - 1);
    }
    assert s[j - 1] < s[j];
  }

  lemma SharedCanonical(a: seq<u32>, b: seq<u32>)
    requires CanonicalCapabilities(a) && |Shared(a, b)| > 0
    ensures CanonicalCapabilities(Shared(a, b))
  {
    SharedIncreasing(a, b);
    SharedShorter(a, b);
    var s := Shared(a, b);
    forall k | 1 <= k < |s| ensures s[k - 1] / 0x1_0000 != s[k] / 0x1_0000 {
      assert s[k - 1] in a && s[k] in a && s[k - 1] < s[k];
      var i :| 0 <= i < |a| && a[i] == s[k - 1];
      var j :| 0 <= j < |a| && a[j] == s[k];
      assert i < j;
      UpperHalvesDistinct(a, i, j);
    }
  }

  lemma SelectCanonical(initiator: Offer, responder: Offer)
    requires Select(initiator, responder).Ok?
    ensures CanonicalCapabilities(Select(initiator, responder).value.capabilities)
  {
    SharedCanonical(initiator.offered, responder.offered);
  }

  // ----- Confirmations -----

  /** `HmacSha256`, a function of key and data. */
  type Hmac = (seq<u8>, seq<u8>) -> Bytes32

  function BuildConfirmation(hmac: Hmac, exporter: seq<u8>, digest: Bytes32, role: Role,
                             decision: Decision): (c: Confirmation)
    ensures |c.message| == 34
  {
    var message := digest + [RoleCode(role), DecisionCode(decision)];
    Confirmation(message, hmac(exporter, message))
  }

  /** `VerifyConfirmation`. */
  function VerifyConfirmation(hmac: Hmac, exporter: seq<u8>, c: Confirmation, digest: Bytes32, sender: Role)
    : Result<Decision, PairingError>
  {
    if |c.message| != 34 then Err(Malformed)
    else if c.message[32] != RoleCode(sender) then Err(RoleMismatch)
    else if c.message[33] > 1 then Err(ConfirmationFailed)
    else if hmac(exporter, c.message) != c.authenticator then Err(ConfirmationFailed)
    else if c.message[..32] != digest then Err(ConfirmationFailed)
    else Ok(if c.message[33] == 0 then Reject else Confirm)
  }

  /** Verification accepts exactly what was built over the same context and exporter by the expected sender, and
      returns the decision it was built from. */
  lemma VerifiesExactly(hmac: Hmac, exporter: seq<u8>, c: Confirmation, digest: Bytes32, sender: Role,
                        decision: Decision)
    ensures VerifyConfirmation(hmac, exporter, c, digest, sender) == Ok(decision) <==>
            c == BuildConfirmation(hmac, exporter, digest, sender, decision)
  {
    var built := BuildConfirmation(hmac, exporter, digest, sender, decision);
    assert built.message[..32] == digest;
    if VerifyConfirmation(hmac, exporter, c, digest, sender) == Ok(decision) {
      assert c.message == c.message[..32] + [c.message[32], c.message[33]];
    }
  }
}
