/** `TranscriptParser` as the object the connection owns: its fields are updated frame by frame. */
module V1Parser {
  import opened Common
  import opened Negotiating
  import opened V1Tlv
  import opened V1Frame
  import opened V1Transcript

  /** `ProcessNegotiate` with its merge loop. */
  method DecideNegotiation(raw: RawNegotiation, a: HelloData, b: HelloData) returns (r: Result<Negotiation, ErrorCode>)
    requires HelloOk(a) && HelloOk(b)
    ensures r == CheckNegotiation(raw, a, b)
  {
    if raw.major == 0 || raw.major > 255 || raw.minor > 255 {
      return Err(MalformedMessage);
    }
    if !AdjacentIncreasing(raw.capabilities) {
      return Err(MalformedMessage);
    }
    var version := Version(raw.major, raw.minor);
    var commonMinimum := VersionMaximum(a.minimum, b.minimum);
    var commonMaximum := VersionMinimum(a.maximum, b.maximum);
    if VersionLess(commonMaximum, commonMinimum) {
      return Err(UnsupportedVersion);
    }
    if version != commonMaximum {
      return Err(DowngradeDetected);
    }
    var shared := MergeIntersection(a.capabilities, b.capabilities);
    if (exists i :: 0 <= i < |a.required| && a.required[i] !in shared) ||
       (exists i :: 0 <= i < |b.required| && b.required[i] !in shared) {
      return Err(UnsupportedCapability);
    }
    if raw.capabilities != shared {
      return Err(UnsupportedCapability);
    }
    if raw.maxBody != Min(a.maxBody, b.maxBody) || raw.maxInFlight != Min(a.maxInFlight, b.maxInFlight) ||
       raw.maxStreams != Min(a.maxStreams, b.maxStreams) {
      return Err(MalformedMessage);
    }
    return Ok(Negotiation(version, raw.capabilities, raw.maxBody, raw.maxInFlight, raw.maxStreams));
  }

  class TranscriptParser {
    var nextId: Pair<u64>
    var exhausted: Pair<bool>
    var hellos: Pair<Option<HelloData>>
    var negotiation: Option<Negotiation>
    var acknowledged: bool
    var finished: Pair<bool>
    var complete: bool
    var pongExpected: Pair<bool>
    var pongToken: Pair<u64>
    var terminal: bool

    function View(): State
      reads this
    {
      State(nextId, exhausted, hellos, negotiation, acknowledged, finished, complete, pongExpected, pongToken, terminal)
    }

    constructor ()
      ensures View() == INITIAL
    {
      nextId, exhausted, hellos := Pair(1, 1), Pair(false, false), Pair(None, None);
      negotiation, acknowledged, finished, complete := None, false, Pair(false, false), false;
      pongExpected, pongToken, terminal := Pair(false, false), Pair(0, 0), false;
    }

    method Complete(error: ErrorCode, streamId: u32)
      requires error != NoError
      modifies this`terminal
      ensures View() == Fail(old(View()), error, streamId).0
    {
      if error.MalformedMessage? || error.UnknownCriticalField? || error.StateViolation? || error.LimitExceeded? {
        terminal := !complete || streamId == 0;
      } else {
        terminal := true;
      }
    }

    /** Dispatch to the message handlers; every branch changes only the fields of its phase. */
    method HandleMessage(d: Direction, m: Message, ghost streamId: u32) returns (error: ErrorCode)
      requires Valid(View()) && EnvelopeStateError(View(), d, KindOf(m), streamId) == NoError
      modifies this
      ensures Handle(old(View()), d, m) == if error == NoError then Ok(View()) else Err(error)
      ensures error != NoError ==> View() == old(View())
    {
      error := NoError;
      match m
      case HelloMessage(raw) =>
        match CheckHello(raw, d) {
          case Err(e) => error := e;
          case Ok(hello) => hellos := Set(hellos, d, Some(hello));
        }
      case NegotiateMessage(raw) =>
        var decided := DecideNegotiation(raw, hellos.fromInitiator.value, hellos.fromResponder.value);
        match decided {
          case Err(e) => error := e;
          case Ok(n) => negotiation := Some(n);
        }
      case AckMessage(raw) =>
        error := AckError(raw, negotiation.value);
        if error == NoError {
          acknowledged := true;
        }
      case FinishedMessage(role) =>
        if role != ExpectedRole(d) {
          error := StateViolation;
        } else {
          finished := Set(finished, d, true);
          complete := finished.fromInitiator && finished.fromResponder;
        }
      case PingMessage(token) =>
        if pongExpected.Get(Opposite(d)) {
          error := StateViolation;
        } else {
          pongExpected := Set(pongExpected, Opposite(d), true);
          pongToken := Set(pongToken, Opposite(d), token);
        }
      case PongMessage(token) =>
        if !pongExpected.Get(d) || pongToken.Get(d) != token {
          error := StateViolation;
        } else {
          pongExpected := Set(pongExpected, d, false);
        }
      case OtherMessage(_) =>
    }

    /** The envelope, the message id, the limits, the state and the body: `Process` up to the dispatch. */
    method ReceiveFrame(d: Direction, encoded: seq<u8>) returns (received: Received)
      modifies this`nextId, this`exhausted
      ensures (View(), received) == Receive(old(View()), d, encoded)
    {
      hide ParseEnvelope, ReadBody, EnvelopeStateError;
      var parsed := ParseFrameEnvelope(encoded, ExpectedVersion(View()));
      if parsed.Err? {
        return Refused(parsed.error, 0);
      }
      var frame := parsed.value;
      if exhausted.Get(d) || frame.messageId != nextId.Get(d) {
        return Refused(MessageIdViolation, frame.streamId);
      }
      if nextId.Get(d) == U64_MAX {
        exhausted := Set(exhausted, d, true);
      } else {
        nextId := Set(nextId, d, nextId.Get(d) + 1);
      }
      if acknowledged && negotiation.Some? && |frame.body| > negotiation.value.maxBody {
        return Refused(LimitExceeded, frame.streamId);
      }
      var stateError := EnvelopeStateError(View(), d, frame.kind, frame.streamId);
      if stateError != NoError {
        return Refused(stateError, frame.streamId);
      }
      received := ParseFrameBody(frame);
    }

    method Process(d: Direction, encoded: seq<u8>) returns (error: ErrorCode)
      requires Valid(View())
      modifies this
      ensures (View(), error) == V1Transcript.Process(old(View()), d, encoded)
    {
      if terminal {
        return StateViolation;
      }
      var received := ReceiveFrame(d, encoded);
      match received
      case Refused(e, streamId) =>
        Complete(e, streamId);
        return e;
      case Accepted(message, _, streamId) =>
        error := HandleMessage(d, message, streamId);
        if error != NoError {
          Complete(error, streamId);
        }
    }
  }

  method ParseFrameBody(frame: Frame) returns (received: Received)
    ensures received == ReadBody(frame)
  {
    var error, fields := ParseTlvs(frame.body, SchemaFor(frame.kind));
    if error != NoError {
      return Refused(error, frame.streamId);
    }
    ParsedIsTyped(frame.body, SchemaFor(frame.kind));
    return Accepted(ReadMessage(frame.kind, fields), frame.messageId, frame.streamId);
  }
}
