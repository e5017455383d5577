/** The two-direction handshake machine of the v1 protocol: `TranscriptParser`. */
module V1Transcript {
  import opened Common
  import opened BigEndian
  import opened Negotiating
  import opened V1Tlv
  import opened V1Frame

  const BASE_TRANSFER_V1: u32 := 0x0001_0001
  const MAX_IN_FLIGHT := 67_108_864
  const MAX_STREAMS := 32

  datatype Direction = InitiatorToResponder | ResponderToInitiator

  function Opposite(d: Direction): Direction {
    if d.InitiatorToResponder? then ResponderToInitiator else InitiatorToResponder
  }

  /** The source's two-element arrays, indexed by direction. */
  datatype Pair<+T> = Pair(fromInitiator: T, fromResponder: T) {
    function Get(d: Direction): T {
      if d.InitiatorToResponder? then fromInitiator else fromResponder
    }
  }

  function Set<T>(p: Pair<T>, d: Direction, value: T): (r: Pair<T>)
    ensures r.Get(d) == value && r.Get(Opposite(d)) == p.Get(Opposite(d))
  {
    if d.InitiatorToResponder? then p.(fromInitiator := value) else p.(fromResponder := value)
  }

  // ----- State -----

  datatype HelloData = HelloData(
    minimum: Version, maximum: Version, capabilities: seq<u32>, required: seq<u32>,
    maxBody: u32, maxInFlight: u32, maxStreams: u16)

  datatype Negotiation = Negotiation(
    version: Version, capabilities: seq<u32>, maxBody: u32, maxInFlight: u32, maxStreams: u16)

  datatype State = State(
    nextId: Pair<u64>,
    exhausted: Pair<bool>,
    hellos: Pair<Option<HelloData>>,
    negotiation: Option<Negotiation>,
    acknowledged: bool,
    finished: Pair<bool>,
    complete: bool,
    pongExpected: Pair<bool>,
    pongToken: Pair<u64>,
    terminal: bool)

  const INITIAL := State(Pair(1, 1), Pair(false, false), Pair(None, None), None, false, Pair(false, false), false,
                         Pair(false, false), Pair(0, 0), false)

  function ExpectedRole(d: Direction): u8 {
    if d.InitiatorToResponder? then 1 else 2
  }

  // ----- Message handlers, as functions of the parsed fields -----

  /** The capability checks of `ProcessHello`. */
  function CapabilityError(capabilities: seq<u32>, required: seq<u32>): (e: ErrorCode)
    ensures e == NoError ==> Increasing(capabilities) && Increasing(required) && BASE_TRANSFER_V1 in required
    ensures e == NoError ==> forall x :: x in required ==> x in capabilities
  {
    AdjacentIsIncreasing(capabilities);
    AdjacentIsIncreasing(required);
    if !AdjacentIncreasing(capabilities) then MalformedMessage
    else if exists i :: 1 <= i < |capabilities| && capabilities[i] / 65536 == capabilities[i - 1] / 65536 then
      MalformedMessage
    else if !AdjacentIncreasing(required) then MalformedMessage
    else if exists i :: 0 <= i < |required| && required[i] !in capabilities then UnsupportedCapability
    else if BASE_TRANSFER_V1 !in capabilities || BASE_TRANSFER_V1 !in required then UnsupportedCapability
    else NoError
  }

  /** Every limit of a HELLO is inside the v1 bounds. */
  predicate LimitsOk(maxBody: u32, maxInFlight: u32, maxStreams: u16) {
    && 8_192 <= maxBody <= MAX_BODY_LENGTH
    && 1_048_576 <= maxInFlight <= MAX_IN_FLIGHT
    && 1 <= maxStreams <= MAX_STREAMS
  }

  predicate HelloOk(h: HelloData) {
    && h.minimum.major != 0
    && !VersionLess(h.maximum, h.minimum)
    && Increasing(h.capabilities)
    && Increasing(h.required)
    && BASE_TRANSFER_V1 in h.required
    && (forall x :: x in h.required ==> x in h.capabilities)
    && LimitsOk(h.maxBody, h.maxInFlight, h.maxStreams)
  }

  /** The values of a HELLO, at the widths the schema fixes. */
  datatype RawHello = RawHello(
    minMajor: u16, minMinor: u16, maxMajor: u16, maxMinor: u16, role: u8,
    capabilities: seq<u32>, required: seq<u32>, maxBody: u32, maxInFlight: u32, maxStreams: u16)

  lemma HelloRules()
    ensures forall id :: 1 <= id <= 4 || id == 10 ==> IsRequired(HELLO_SCHEMA, id, U16)
    ensures IsRequired(HELLO_SCHEMA, 5, U8)
    ensures forall id :: 6 <= id <= 9 ==> IsRequired(HELLO_SCHEMA, id, U32)
  {
  }

  function ReadHello(fields: seq<Field>): (r: RawHello)
    requires Typed(fields, HELLO_SCHEMA)
  {
    HelloRules();
    RawHello(
      NumberU16(fields, HELLO_SCHEMA, 1), NumberU16(fields, HELLO_SCHEMA, 2),
      NumberU16(fields, HELLO_SCHEMA, 3), NumberU16(fields, HELLO_SCHEMA, 4), NumberU8(fields, HELLO_SCHEMA, 5),
      Capabilities(fields, HELLO_SCHEMA, 6), Capabilities(fields, HELLO_SCHEMA, 7),
      NumberU32(fields, HELLO_SCHEMA, 8), NumberU32(fields, HELLO_SCHEMA, 9), NumberU16(fields, HELLO_SCHEMA, 10))
  }

  /** `ProcessHello` after the state checks. */
  function CheckHello(raw: RawHello, d: Direction): (r: Result<HelloData, ErrorCode>)
    ensures r.Ok? ==> HelloOk(r.value)
    ensures r.Err? ==> r.error != NoError
  {
    if raw.minMajor == 0 || raw.minMajor > 255 || raw.minMinor > 255 || raw.maxMajor > 255 || raw.maxMinor > 255 then
      Err(MalformedMessage)
    else
      var minimum, maximum := Version(raw.minMajor, raw.minMinor), Version(raw.maxMajor, raw.maxMinor);
      var error := CapabilityError(raw.capabilities, raw.required);
      if VersionLess(maximum, minimum) then Err(MalformedMessage)
      else if raw.role != ExpectedRole(d) then Err(StateViolation)
      else if error != NoError then Err(error)
      else if !LimitsOk(raw.maxBody, raw.maxInFlight, raw.maxStreams) then Err(LimitExceeded)
      else
        Ok(HelloData(minimum, maximum, raw.capabilities, raw.required, raw.maxBody, raw.maxInFlight, raw.maxStreams))
  }

  datatype RawNegotiation = RawNegotiation(
    major: u16, minor: u16, capabilities: seq<u32>, maxBody: u32, maxInFlight: u32, maxStreams: u16)

  lemma NegotiationRules()
    ensures IsRequired(NEGOTIATE_SCHEMA, 1, U16) && IsRequired(NEGOTIATE_SCHEMA, 2, U16)
    ensures IsRequired(NEGOTIATE_SCHEMA, 6, U16)
    ensures forall id :: 3 <= id <= 5 ==> IsRequired(NEGOTIATE_SCHEMA, id, U32)
  {
  }

  function ReadNegotiation(fields: seq<Field>): (r: RawNegotiation)
    requires Typed(fields, NEGOTIATE_SCHEMA)
  {
    NegotiationRules();
    RawNegotiation(
      NumberU16(fields, NEGOTIATE_SCHEMA, 1), NumberU16(fields, NEGOTIATE_SCHEMA, 2),
      Capabilities(fields, NEGOTIATE_SCHEMA, 3), NumberU32(fields, NEGOTIATE_SCHEMA, 4),
      NumberU32(fields, NEGOTIATE_SCHEMA, 5), NumberU16(fields, NEGOTIATE_SCHEMA, 6))
  }

  /** `ProcessNegotiate` after the state checks. */
  function CheckNegotiation(raw: RawNegotiation, a: HelloData, b: HelloData): (r: Result<Negotiation, ErrorCode>)
    ensures r.Err? ==> r.error != NoError
  {
    if raw.major == 0 || raw.major > 255 || raw.minor > 255 then Err(MalformedMessage)
    else if !AdjacentIncreasing(raw.capabilities) then Err(MalformedMessage)
    else
      var version := Version(raw.major, raw.minor);
      var commonMinimum := VersionMaximum(a.minimum, b.minimum);
      var commonMaximum := VersionMinimum(a.maximum, b.maximum);
      var shared := Shared(a.capabilities, b.capabilities);
      if VersionLess(commonMaximum, commonMinimum) then Err(UnsupportedVersion)
      else if version != commonMaximum then Err(DowngradeDetected)
      else if exists i :: 0 <= i < |a.required| && a.required[i] !in shared then Err(UnsupportedCapability)
      else if exists i :: 0 <= i < |b.required| && b.required[i] !in shared then Err(UnsupportedCapability)
      else if raw.capabilities != shared then Err(UnsupportedCapability)
      else if raw.maxBody != Min(a.maxBody, b.maxBody) || raw.maxInFlight != Min(a.maxInFlight, b.maxInFlight) ||
              raw.maxStreams != Min(a.maxStreams, b.maxStreams) then Err(MalformedMessage)
      else Ok(Negotiation(version, raw.capabilities, raw.maxBody, raw.maxInFlight, raw.maxStreams))
  }

  /** `ProcessNegotiateAck` after the state checks. */
  function AckError(raw: RawNegotiation, n: Negotiation): ErrorCode {
    if raw.major > 255 || raw.minor > 255 then MalformedMessage
    else if Version(raw.major, raw.minor) != n.version || raw.capabilities != n.capabilities ||
            raw.maxBody != n.maxBody || raw.maxInFlight != n.maxInFlight
              || raw.maxStreams != n.maxStreams then MalformedMessage
    else NoError
  }

  // ----- One step -----

  /** `Complete`: which errors end the transcript. */
  function Fail(s: State, error: ErrorCode, streamId: u32): (r: (State, ErrorCode))
    requires error != NoError
  {
    match error
    case MalformedMessage | UnknownCriticalField | StateViolation | LimitExceeded =>
      (s.(terminal := !s.complete || streamId == 0), error)
    case _ => (s.(terminal := true), error)
  }

  /** `ValidateEnvelopeState`. */
  function EnvelopeStateError(s: State, d: Direction, kind: MessageType, streamId: u32): ErrorCode {
    match kind
    case Hello =>
      if s.hellos.Get(d).Some? || s.negotiation.Some? || s.acknowledged || s.complete then StateViolation else NoError
    case Negotiate =>
      if d != InitiatorToResponder then StateViolation
      else if s.hellos.fromInitiator.None? || s.hellos.fromResponder.None? then StateViolation
      else if s.negotiation.Some? then StateViolation
      else NoError
    case NegotiateAck =>
      if d != ResponderToInitiator then StateViolation
      else if s.negotiation.None? then StateViolation
      else if s.acknowledged then StateViolation
      else NoError
    case TransportFinished =>
      if !s.acknowledged then StateViolation else if s.finished.Get(d) then StateViolation else NoError
    case Error => if !s.complete && streamId != 0 then StateViolation else NoError
    case _ => if !s.complete then StateViolation else NoError
  }

  /** A parsed body, reduced to the values its handler uses. */
  datatype Message =
    | HelloMessage(hello: RawHello)
    | NegotiateMessage(proposal: RawNegotiation)
    | AckMessage(echo: RawNegotiation)
    | FinishedMessage(role: u8)
    | PingMessage(token: u64)
    | PongMessage(token: u64)
    | OtherMessage(kind: MessageType)

  function KindOf(m: Message): MessageType {
    match m
    case HelloMessage(_) => Hello
    case NegotiateMessage(_) => Negotiate
    case AckMessage(_) => NegotiateAck
    case FinishedMessage(_) => TransportFinished
    case PingMessage(_) => Ping
    case PongMessage(_) => Pong
    case OtherMessage(kind) => kind
  }

  predicate Proper(m: Message) {
    m.OtherMessage? ==>
      !m.kind.Hello? && !m.kind.Negotiate? && !m.kind.NegotiateAck? && !m.kind.TransportFinished? && !m.kind.Ping?
        && !m.kind.Pong?
  }

  /** The body was parsed with the schema its handler relies on. */
  ghost predicate BodyTyped(kind: MessageType, fields: seq<Field>) {
    && (kind.Hello? ==> Typed(fields, HELLO_SCHEMA))
    && (kind.Negotiate? || kind.NegotiateAck? ==> Typed(fields, NEGOTIATE_SCHEMA))
    && (kind.TransportFinished? ==> Typed(fields, FINISHED_SCHEMA))
    && (kind.Ping? || kind.Pong? ==> Typed(fields, PING_SCHEMA))
  }

  function ReadFinished(fields: seq<Field>): (role: u8)
    requires Typed(fields, FINISHED_SCHEMA)
  {
    NumberU8(fields, FINISHED_SCHEMA, 1)
  }

  function ReadToken(fields: seq<Field>): (token: u64)
    requires Typed(fields, PING_SCHEMA)
  {
    NumberU64(fields, PING_SCHEMA, 1)
  }

  /** Every `FindFirst` dereference and narrowing cast of the handlers: all are safe on a parsed body. */
  function ReadMessage(kind: MessageType, fields: seq<Field>): (m: Message)
    requires BodyTyped(kind, fields)
  {
    if kind.Hello? then HelloMessage(ReadHello(fields))
    else if kind.Negotiate? then NegotiateMessage(ReadNegotiation(fields))
    else if kind.NegotiateAck? then AckMessage(ReadNegotiation(fields))
    else if kind.TransportFinished? then FinishedMessage(ReadFinished(fields))
    else if kind.Ping? then PingMessage(ReadToken(fields))
    else if kind.Pong? then PongMessage(ReadToken(fields))
    else OtherMessage(kind)
  }

  lemma ReadMessageKind(kind: MessageType, fields: seq<Field>)
    requires BodyTyped(kind, fields)
    ensures KindOf(ReadMessage(kind, fields)) == kind && Proper(ReadMessage(kind, fields))
  {
    hide Typed, ReadHello, ReadNegotiation, ReadFinished, ReadToken;
  }

  /** The message handlers. */
  function Handle(s: State, d: Direction, m: Message): (r: Result<State, ErrorCode>)
    requires m.NegotiateMessage? ==> s.hellos.fromInitiator.Some? && s.hellos.fromResponder.Some?
    requires m.AckMessage? ==> s.negotiation.Some?
    ensures r.Err? ==> r.error != NoError
  {
    match m
    case HelloMessage(raw) =>
      (match CheckHello(raw, d)
       case Err(error) => Err(error)
       case Ok(hello) => Ok(s.(hellos := Set(s.hellos, d, Some(hello)))))
    case NegotiateMessage(raw) =>
      (match CheckNegotiation(raw, s.hellos.fromInitiator.value, s.hellos.fromResponder.value)
       case Err(error) => Err(error)
       case Ok(negotiation) => Ok(s.(negotiation := Some(negotiation))))
    case AckMessage(raw) =>
      var error := AckError(raw, s.negotiation.value);
      if error != NoError then Err(error) else Ok(s.(acknowledged := true))
    case FinishedMessage(role) =>
      if role != ExpectedRole(d) then Err(StateViolation)
      else
        var finished := Set(s.finished, d, true);
        Ok(s.(finished := finished, complete := finished.fromInitiator && finished.fromResponder))
    case PingMessage(token) =>
      if s.pongExpected.Get(Opposite(d)) then Err(StateViolation)
      else Ok(s.(pongExpected := Set(s.pongExpected, Opposite(d), true),
                 pongToken := Set(s.pongToken, Opposite(d), token)))
    case PongMessage(token) =>
      if !s.pongExpected.Get(d) || s.pongToken.Get(d) != token then Err(StateViolation)
      else Ok(s.(pongExpected := Set(s.pongExpected, d, false)))
    case OtherMessage(_) => Ok(s)
  }

  function ExpectedVersion(s: State): Version {
    if s.acknowledged && s.negotiation.Some? then s.negotiation.value.version else Version(1, 0)
  }

  function ConsumeId(s: State, d: Direction): State {
    if s.nextId.Get(d) == U64_MAX then s.(exhausted := Set(s.exhausted, d, true))
    else s.(nextId := Set(s.nextId, d, s.nextId.Get(d) + 1))
  }

  /** What the frame-level half of `Process` hands to the message handlers. */
  datatype Received =
    | Refused(error: ErrorCode, streamId: u32)
    | Accepted(message: Message, messageId: u64, streamId: u32)

  /** Parse the envelope, take the next message id, check limits and state, parse the body. */
  ghost function Receive(s: State, d: Direction, encoded: seq<u8>): (r: (State, Received))
    ensures r.0 == s || r.0 == ConsumeId(s, d)
    ensures r.1.Refused? ==> r.1.error != NoError
    ensures r.1.Accepted? ==> MayHandle(s, d, r.0, r.1)
  {
    match ParseEnvelope(encoded, ExpectedVersion(s))
    case Err(error) => ParseEnvelopeError(encoded, ExpectedVersion(s)); (s, Refused(error, 0))
    case Ok(frame) =>
      if s.exhausted.Get(d) || frame.messageId != s.nextId.Get(d) then (s, Refused(MessageIdViolation, frame.streamId))
      else
        var t := ConsumeId(s, d);
        var stateError := EnvelopeStateError(t, d, frame.kind, frame.streamId);
        if t.acknowledged && t.negotiation.Some? && |frame.body| > t.negotiation.value.maxBody then
          (t, Refused(LimitExceeded, frame.streamId))
        else if stateError != NoError then (t, Refused(stateError, frame.streamId))
        else
          (t, ReadBody(frame))
  }

  ghost function ReadBody(frame: Frame): (r: Received)
    ensures r.Refused? ==> r.error != NoError
    ensures r.Accepted? ==> KindOf(r.message) == frame.kind && Proper(r.message) && r.messageId == frame.messageId
    ensures r.streamId == frame.streamId
  {
    match Parse(frame.body, SchemaFor(frame.kind))
    case Err(error) => ParseErrors(frame.body, SchemaFor(frame.kind), 0, None, []); Refused(error, frame.streamId)
    case Ok(fields) =>
      ParsedIsTyped(frame.body, SchemaFor(frame.kind));
      ReadMessageKind(frame.kind, fields);
      Accepted(ReadMessage(frame.kind, fields), frame.messageId, frame.streamId)
  }

  /** What is known of a frame that reaches its handler. */
  predicate MayHandle(s: State, d: Direction, t: State, r: Received) {
    && r.Accepted?
    && t == ConsumeId(s, d) && !s.exhausted.Get(d) && r.messageId == s.nextId.Get(d)
    && Proper(r.message) && EnvelopeStateError(t, d, KindOf(r.message), r.streamId) == NoError
  }

  /** `Process` once the frame was received. */
  function Conclude(t: State, d: Direction, r: Received): (u: (State, ErrorCode))
    requires r.Refused? ==> r.error != NoError
    requires r.Accepted? ==> EnvelopeStateError(t, d, KindOf(r.message), r.streamId) == NoError
  {
    match r
    case Refused(error, streamId) => Fail(t, error, streamId)
    case Accepted(message, _, streamId) =>
      match Handle(t, d, message)
      case Err(error) => Fail(t, error, streamId)
      case Ok(u) => (u, NoError)
  }

  /** `Process`: the state after one encoded frame and the error it draws. */
  ghost function Process(s: State, d: Direction, encoded: seq<u8>): (r: (State, ErrorCode)) {
    if s.terminal then (s, StateViolation)
    else
      var (t, received) := Receive(s, d, encoded);
      Conclude(t, d, received)
  }

  // ----- What every reachable state satisfies -----

  ghost predicate HighestCommon(v: Version, a: HelloData, b: HelloData) {
    && InRange(v, a.minimum, a.maximum)
    && InRange(v, b.minimum, b.maximum)
    && forall w: Version :: InRange(w, a.minimum, a.maximum) && InRange(w, b.minimum, b.maximum) ==> !VersionLess(v, w)
  }

  /** The agreement a completed negotiation must be: stated without reference to how it was checked. */
  ghost predicate Agreed(n: Negotiation, a: HelloData, b: HelloData) {
    && HighestCommon(n.version, a, b)
    && Increasing(n.capabilities)
    && (forall x :: x in n.capabilities <==> x in a.capabilities && x in b.capabilities)
    && (forall x :: x in a.required || x in b.required ==> x in n.capabilities)
    && n.maxBody == Min(a.maxBody, b.maxBody)
    && n.maxInFlight == Min(a.maxInFlight, b.maxInFlight)
    && n.maxStreams == Min(a.maxStreams, b.maxStreams)
  }

  lemma VersionsAgree(a: HelloData, b: HelloData)
    requires HelloOk(a) && HelloOk(b)
    requires !VersionLess(VersionMinimum(a.maximum, b.maximum), VersionMaximum(a.minimum, b.minimum))
    ensures HighestCommon(VersionMinimum(a.maximum, b.maximum), a, b)
  {
  }

  lemma CheckedNegotiationAgrees(raw: RawNegotiation, a: HelloData, b: HelloData)
    requires HelloOk(a) && HelloOk(b) && CheckNegotiation(raw, a, b).Ok?
    ensures Agreed(CheckNegotiation(raw, a, b).value, a, b)
  {
    VersionsAgree(a, b);
    AdjacentIsIncreasing(raw.capabilities);
    forall x | x in a.required || x in b.required
      ensures x in Shared(a.capabilities, b.capabilities)
    {
    }
  }

  ghost predicate Valid(s: State) {
    && (s.hellos.fromInitiator.Some? ==> HelloOk(s.hellos.fromInitiator.value))
    && (s.hellos.fromResponder.Some? ==> HelloOk(s.hellos.fromResponder.value))
    && (s.negotiation.Some? ==>
          s.hellos.fromInitiator.Some? && s.hellos.fromResponder.Some? &&
          Agreed(s.negotiation.value, s.hellos.fromInitiator.value, s.hellos.fromResponder.value))
    && (s.acknowledged ==> s.negotiation.Some?)
    && (s.finished.fromInitiator || s.finished.fromResponder ==> s.acknowledged)
    && (s.complete <==> s.finished.fromInitiator && s.finished.fromResponder)
  }

  lemma HandleKeepsValid(s: State, d: Direction, m: Message, streamId: u32)
    requires Valid(s) && EnvelopeStateError(s, d, KindOf(m), streamId) == NoError
    requires Handle(s, d, m).Ok?
    ensures Valid(Handle(s, d, m).value)
  {
    if m.NegotiateMessage? {
      CheckedNegotiationAgrees(m.proposal, s.hellos.fromInitiator.value, s.hellos.fromResponder.value);
    }
  }
}
