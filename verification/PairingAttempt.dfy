/** One pairing attempt as a function of its state: hellos, selection, decisions and the
    commit, each under its deadlines. */
module PairingAttempt {
  import opened Common
  import opened Negotiating
  import opened PairingWire
  import opened PairingMessages

  const MAX_INBOUND_FRAMES := 16
  const MAX_INBOUND_BYTES := 65_536
  const FIRST_FRAME_TIMEOUT := 5_000
  const SELECTION_TIMEOUT := 10_000
  const IDLE_TIMEOUT := 30_000
  const DECISION_TIMEOUT := 90_000
  const COMPLETE_TIMEOUT := 120_000
  const MAX_WINDOW := 120_000
  const MAX_LABEL_BYTES := 96

  /** What the attempt is given when it is created; `handle` is drawn for it. */
  datatype Config = Config(role: Role, key: Bytes32, nonce: Bytes32, offer: Offer, handle: seq<u8>, peerKey: Bytes32,
                           admittedAt: u64, windowDeadline: u64)

  /** The cryptography of one TLS connection, the same at both of its ends. `context` is the digest of the pairing
      context built from both hellos and the selection. */
  datatype Crypto = Crypto(validKey: seq<u8> -> bool,
                           context: (Hello, Hello, Selection) -> Result<Bytes32, PairingError>,
                           exportPairing: Bytes32 -> Option<Bytes32>,
                           sas: (Bytes32, Bytes32) -> Result<seq<u16>, PairingError>,
                           exportConfirmation: Bytes32 -> Option<Bytes32>,
                           hmac: Hmac)

  /** What admission, the replay reservation and the identity repository answer during one call. */
  datatype Answers = Answers(leaseActive: bool, replay: Option<PairingError>, visible: bool, committed: bool)

  datatype Phase = PairingTls | ExchangingHellos | Selecting | AwaitingDecisions | PairedLocal | Closed

  /** What has been learnt and derived so far. */
  datatype Known = Known(localHello: Option<Hello>, remoteHello: Option<Hello>, selection: Option<Selection>,
                         context: Option<Bytes32>, exporter: Option<Bytes32>)

  datatype Choice = Choice(decision: Option<Decision>, ackPending: bool, decisionWritten: bool, peerConfirmed: bool)

  datatype Traffic = Traffic(nextOut: u32, nextIn: u32, frames: nat, bytes: nat)

  datatype Timers = Timers(absolute: u64, firstFrame: u64, selection: u64, decision: u64, idle: u64)

  datatype Attempt = Attempt(phase: Phase, handle: seq<u8>, known: Known, choice: Choice, traffic: Traffic,
                             timers: Timers, lastNow: u64)

  datatype Prompt = Prompt(handle: seq<u8>, sas: seq<u16>, deadline: u64)

  /** `frame` is empty when nothing is sent; `decided`, `committing` and `binding` mark the call that records the user's
      decision, the call of `CommitPeer` and the binding of a context to the replay reservation. */
  datatype Update = Update(phase: Phase, error: Option<PairingError>, frame: seq<u8>, prompt: Option<Prompt>,
                           decided: Option<Decision>, committing: bool, binding: Option<Bytes32>)

  datatype Step = Step(attempt: Attempt, update: Update)

  predicate Terminal(phase: Phase) {
    phase == Closed || phase == PairedLocal
  }

  function Plain(a: Attempt): Step {
    Step(a, Update(a.phase, None, [], None, None, false, None))
  }

  function Rejected(a: Attempt, error: PairingError): Step {
    Step(a, Plain(a).update.(error := Some(error)))
  }

  const NOTHING := Known(None, None, None, None, None)
  const UNDECIDED := Choice(None, false, false, false)

  /** `FinalizeResources` and the wiping around it. */
  function Wiped(a: Attempt, phase: Phase): Attempt {
    a.(phase := phase, handle := [], known := NOTHING, choice := UNDECIDED)
  }

  function Close(a: Attempt, error: PairingError): Step {
    Rejected(Wiped(a, Closed), error)
  }

  function NextSequence(sequence: u32): u32 {
    if sequence == U32_MAX then 0 else sequence + 1
  }

  /** `EncodeFrame` as the encoders use it: empty when the body is too long. */
  function Encoded(f: Frame): seq<u8> {
    if Encodable(f) then EncodeFrame(f) else []
  }

  function HelloFrame(sequence: u32, h: Hello): Frame
    requires OfferOk(h.offer)
  {
    Frame(HELLO, sequence, HelloFields(h))
  }

  function AbortFrame(sequence: u32, code: u16): Frame {
    Frame(ABORT, sequence, AbortFields(code))
  }

  function Sent(a: Attempt): Attempt {
    a.(traffic := a.traffic.(nextOut := NextSequence(a.traffic.nextOut)))
  }

  function Created(c: Config): Attempt {
    Attempt(PairingTls, c.handle, NOTHING, UNDECIDED, Traffic(1, 1, 0, 0),
            Timers(Min(c.windowDeadline, SaturatingAdd(c.admittedAt, COMPLETE_TIMEOUT)), 0, 0, 0, 0), c.admittedAt)
  }

  // ----- Creation -----

  /** What `Create` finds besides the configuration: the repository and the lease, the label, the keys of the lease,
      the replay reservation and the entropy source. */
  datatype Given = Given(ready: bool, leased: bool, labelBytes: nat, leaseKey: Bytes32, leasePeer: Bytes32,
                         reserved: bool, drawn: bool)

  /** Why `Create` makes no attempt. */
  function CreateError(c: Config, crypto: Crypto, given: Given): Option<PairingError> {
    if !given.ready || !given.leased then Some(Busy)
    else if given.labelBytes > MAX_LABEL_BYTES || c.windowDeadline <= c.admittedAt
            || c.windowDeadline > SaturatingAdd(c.admittedAt, MAX_WINDOW)
              || !OfferOk(c.offer) then Some(InternalFailure)
    else if !crypto.validKey(c.key) || c.key != given.leaseKey || c.peerKey != given.leasePeer
      || c.key == c.peerKey then
      Some(CertificateRejected)
    else if !given.reserved then Some(Busy)
    else if !given.drawn || AllZero(c.handle) || AllZero(c.nonce) then Some(InternalFailure)
    else None
  }

  /** What an attempt's configuration satisfies. */
  predicate Creatable(c: Config, crypto: Crypto) {
    && c.admittedAt < c.windowDeadline <= SaturatingAdd(c.admittedAt, MAX_WINDOW) && OfferOk(c.offer)
    && crypto.validKey(c.key) && c.key != c.peerKey && !AllZero(c.handle) && !AllZero(c.nonce)
  }

  /** An attempt can be made of a configuration if and only if it is one of these. */
  lemma CreatedExactly(c: Config, crypto: Crypto)
    ensures Creatable(c, crypto) <==> exists given :: CreateError(c, crypto, given).None?
  {
    if Creatable(c, crypto) {
      assert CreateError(c, crypto, Given(true, true, 0, c.key, c.peerKey, true, true)).None?;
    }
  }

  function Within(t: Timers, now: u64, timeout: u64): u64 {
    Min(t.absolute, SaturatingAdd(now, timeout))
  }

  function Deadline(a: Attempt): u64 {
    var t := a.timers;
    if a.phase == ExchangingHellos then Min(Min(Min(t.absolute, t.firstFrame), t.selection), t.idle)
    else if a.phase == Selecting then Min(Min(t.absolute, t.selection), t.idle)
    else if a.phase == AwaitingDecisions then Min(Min(t.absolute, t.decision), t.idle)
    else t.absolute
  }

  /** `CheckDeadline`: the attempt with the time taken over, and how the call ends if it ends here. */
  function CheckDeadline(a: Attempt, now: u64, answers: Answers): (Attempt, Option<Step>) {
    var b := a.(lastNow := Max(a.lastNow, now));
    if Terminal(b.phase) then (b, Some(Plain(b)))
    else if !answers.leaseActive then (b, Some(Close(b, Busy)))
    else if now < Deadline(b) then (b, None)
    else
      var closed := Close(b, Timeout);
      (b, Some(closed.(update := closed.update.(frame := Encoded(AbortFrame(b.traffic.nextOut, 4))))))
  }

  function Hellos(c: Config, k: Known): (Hello, Hello)
    requires k.localHello.Some? && k.remoteHello.Some?
  {
    if c.role == Initiator then (k.localHello.value, k.remoteHello.value) else (k.remoteHello.value, k.localHello.value)
  }

  // ----- Steps after the deadline check -----

  function Started(c: Config, a: Attempt, now: u64): Step {
    if a.phase != PairingTls then Close(a, StateViolation)
    else
      var hello := Hello(c.role, c.nonce, c.key, c.offer);
      var b := Sent(a).(known := a.known.(localHello := Some(hello)));
      if !OfferOk(c.offer) || Encoded(HelloFrame(a.traffic.nextOut, hello)) == [] then Close(b, InternalFailure)
      else
        var t := b.timers;
        var d := b.(phase := ExchangingHellos, lastNow := now,
                    timers := t.(firstFrame := Within(t, now, FIRST_FRAME_TIMEOUT),
                                 selection := Within(t, now, SELECTION_TIMEOUT), idle := Within(t, now, IDLE_TIMEOUT)));
        Step(d, Plain(d).update.(frame := Encoded(HelloFrame(a.traffic.nextOut, hello))))
  }

  /** An attempt that heard from its peer. */
  function Heard(a: Attempt, now: u64): Attempt {
    a.(timers := a.timers.(idle := Within(a.timers, now, IDLE_TIMEOUT)), lastNow := now)
  }

  function MaybeCommit(a: Attempt, answers: Answers): Step {
    if a.phase != AwaitingDecisions || a.choice.decision != Some(Confirm) || !a.choice.decisionWritten
       || !a.choice.peerConfirmed || a.known.context.None? then Plain(a)
    else
      var next := if answers.committed then Plain(Wiped(a, PairedLocal)) else Close(a, InternalFailure);
      next.(update := next.update.(committing := true))
  }

  /** The part of `CompleteSelection` that follows the replay and visibility checks. */
  function Prompted(a: Attempt, digest: Bytes32, crypto: Crypto, now: u64): Step {
    var secret := crypto.exportPairing(digest);
    if secret.None? then Close(a, InternalFailure)
    else
      var sas := crypto.sas(secret.value, digest);
      if sas.Err? then Close(a, sas.error)
      else if crypto.exportConfirmation(digest).None? then Close(a, InternalFailure)
      else
        var t := a.timers;
        var b := a.(phase := AwaitingDecisions, known := a.known.(exporter := crypto.exportConfirmation(digest)),
                    lastNow := now,
                    timers := t.(decision := Within(t, now, DECISION_TIMEOUT), idle := Within(t, now, IDLE_TIMEOUT)));
        Step(b, Plain(b).update.(prompt := Some(Prompt(b.handle, sas.value, b.timers.decision))))
  }

  function CompleteSelection(c: Config, a: Attempt, crypto: Crypto, now: u64, answers: Answers): Step {
    var k := a.known;
    if k.localHello.None? || k.remoteHello.None? || k.selection.None? then Close(a, InternalFailure)
    else
      var (initiator, responder) := Hellos(c, k);
      match crypto.context(initiator, responder, k.selection.value)
      case Err(error) => Close(a, error)
      case Ok(digest) =>
        var b := a.(known := k.(context := Some(digest)));
        var next := Unreplayed(b, digest, crypto, now, answers);
        next.(update := next.update.(binding := Some(digest)))
  }

  /** What follows the binding of the context to the replay reservation. */
  function Unreplayed(a: Attempt, digest: Bytes32, crypto: Crypto, now: u64, answers: Answers): Step {
    if answers.replay.Some? then Close(a, answers.replay.value)
    else if !answers.visible then Close(a, Busy)
    else Prompted(a, digest, crypto, now)
  }

  /** What an initiator's and a responder's hello come to. */
  function SelectBetween(c: Config, hello: Hello): Result<Selection, PairingError> {
    if c.role == Initiator then Select(c.offer, hello.offer) else Select(hello.offer, c.offer)
  }

  function ReceiveHello(c: Config, a: Attempt, crypto: Crypto, f: Frame, now: u64): Step {
    if a.phase != ExchangingHellos || a.known.remoteHello.Some? then Close(a, StateViolation)
    else
      match DecodeHello(f, Opposite(c.role), c.peerKey, crypto.validKey)
      case Err(error) => Close(a, error)
      case Ok(hello) =>
        if c.key == hello.key then Close(a, CertificateRejected)
        else
          var b, selected := a.(known := a.known.(remoteHello := Some(hello))), SelectBetween(c, hello);
          if selected.Err? then Close(b, selected.error)
          else
            var d := Heard(b, now).(phase := Selecting, known := b.known.(selection := Some(selected.value)));
            if c.role == Initiator then SendSelection(d, SELECT, selected.value) else Plain(d)
  }

  function SelectionFrame(kind: u16, sequence: u32, s: Selection): Option<Frame> {
    if |s.capabilities| <= MAX_CAPABILITIES then Some(Frame(kind, sequence, SelectionFields(s))) else None
  }

  function SendSelection(a: Attempt, kind: u16, s: Selection): Step {
    var frame, b := SelectionFrame(kind, a.traffic.nextOut, s), Sent(a);
    if frame.None? || Encoded(frame.value) == [] then Close(b, InternalFailure)
    else Step(b, Plain(b).update.(frame := Encoded(frame.value)))
  }

  function ReceiveSelection(c: Config, a: Attempt, crypto: Crypto, f: Frame, now: u64, answers: Answers): Step {
    if a.phase != Selecting || a.known.selection.None?
       || f.kind != (if c.role == Responder then SELECT else SELECT_ACK) then
      Close(a, StateViolation)
    else
      var own := a.known.selection.value;
      match DecodeSelection(f)
      case Err(error) => Close(a, error)
      case Ok(received) =>
        if received != own then Close(a,
                                      if VersionLess(received.version, own.version) then DowngradeDetected
                                        else Malformed)
        else if c.role == Responder then
          var sent := SendSelection(a, SELECT_ACK, own);
          if Terminal(sent.attempt.phase) then sent
          else sent.(attempt := sent.attempt.(choice := a.choice.(ackPending := true), lastNow := now))
        else CompleteSelection(c, a, crypto, now, answers)
  }

  function ReceiveDecision(c: Config, a: Attempt, crypto: Crypto, f: Frame, now: u64, answers: Answers): Step {
    if a.phase != AwaitingDecisions || a.choice.peerConfirmed || a.known.context.None? || a.known.exporter.None? then
      Close(a, StateViolation)
    else
      match DecodeDecision(f)
      case Err(error) => Close(a, error)
      case Ok(confirmation) =>
        match VerifyConfirmation(crypto.hmac, a.known.exporter.value, confirmation, a.known.context.value,
                                 Opposite(c.role))
        case Err(error) => Close(a, error)
        case Ok(decision) =>
          if decision == Reject then Close(a, AuthenticatedReject)
          else MaybeCommit(Heard(a, now).(choice := a.choice.(peerConfirmed := true)), answers)
  }

  function ReceiveAbort(a: Attempt, f: Frame): Step {
    match DecodeAbort(f)
    case Err(error) => Close(a, error)
    case Ok(code) => Close(a,
                           if code == 2 then Busy else if code == 3 then Cancelled else if code == 4 then Timeout
                             else InternalFailure)
  }

  function Dispatch(c: Config, a: Attempt, crypto: Crypto, f: Frame, now: u64, answers: Answers): Step {
    if f.kind == ABORT then ReceiveAbort(a, f)
    else if f.kind == HELLO then ReceiveHello(c, a, crypto, f, now)
    else if f.kind == SELECT || f.kind == SELECT_ACK then ReceiveSelection(c, a, crypto, f, now, answers)
    else if f.kind == DECISION then ReceiveDecision(c, a, crypto, f, now, answers)
    else Close(a, StateViolation)
  }

  function Received(c: Config, a: Attempt, crypto: Crypto, bytes: seq<u8>, now: u64, answers: Answers): Step {
    var t := a.traffic;
    if a.phase == PairingTls then Close(a, StateViolation)
    else if t.frames == MAX_INBOUND_FRAMES || |bytes| > MAX_INBOUND_BYTES - t.bytes then Close(a, LimitExceeded)
    else
      var b := a.(traffic := t.(frames := t.frames + 1, bytes := t.bytes + |bytes|));
      match ParseFrame(bytes)
      case Err(error) => Close(b, error)
      case Ok(f) =>
        if f.sequence != t.nextIn || t.nextIn == U32_MAX then Close(b, SequenceViolation)
        else Dispatch(c, b.(traffic := b.traffic.(nextIn := t.nextIn + 1)), crypto, f, now, answers)
  }

  predicate HandleMatches(a: Attempt, handle: seq<u8>) {
    handle == a.handle && !AllZero(a.handle)
  }

  function AckWritten(c: Config, a: Attempt, crypto: Crypto, handle: seq<u8>, now: u64, answers: Answers): Step {
    if !HandleMatches(a, handle) then Rejected(a, StateViolation)
    else if c.role != Responder || a.phase != Selecting || !a.choice.ackPending then Close(a, StateViolation)
    else CompleteSelection(c, a.(choice := a.choice.(ackPending := false), lastNow := now), crypto, now, answers)
  }

  /** `Decide`; `decision` is nothing when it is neither of the two. */
  function Decided(c: Config, a: Attempt, crypto: Crypto, handle: seq<u8>, decision: Option<Decision>, now: u64): Step {
    var k := a.known;
    if !HandleMatches(a, handle) then Rejected(a, StateViolation)
    else if a.phase != AwaitingDecisions || k.context.None? || k.exporter.None? then Close(a, StateViolation)
    else if a.choice.decision.Some? then if a.choice.decision == decision then Plain(a) else Rejected(a, AlreadyDecided)
    else if decision.None? then Close(a, StateViolation)
    else
      var confirmation := BuildConfirmation(crypto.hmac, k.exporter.value, k.context.value, c.role, decision.value);
      var frame := Encoded(Frame(DECISION, a.traffic.nextOut, DecisionFields(confirmation)));
      var b := Sent(a).(choice := a.choice.(decision := decision));
      if frame == [] then Close(b, InternalFailure)
      else
        var next := if decision == Some(Reject) then Close(b, LocalReject) else Plain(b.(lastNow := now));
        next.(update := next.update.(frame := frame, decided := decision))
  }

  function DecisionWritten(a: Attempt, handle: seq<u8>, now: u64, answers: Answers): Step {
    if !HandleMatches(a, handle) then Rejected(a, StateViolation)
    else if a.phase != AwaitingDecisions || a.choice.decision != Some(Confirm) then Close(a, StateViolation)
    else MaybeCommit(a.(choice := a.choice.(decisionWritten := true), lastNow := now), answers)
  }

  function Cancel(a: Attempt, handle: seq<u8>): Step {
    if !HandleMatches(a, handle) then Rejected(a, StateViolation)
    else
      var closed := Close(a, Cancelled);
      closed.(update := closed.update.(frame := Encoded(AbortFrame(a.traffic.nextOut, 3))))
  }

  // ----- Calls -----

  datatype Call =
    | Start(now: u64)
    | Receive(bytes: seq<u8>, now: u64)
    | WroteAck(handle: seq<u8>, now: u64)
    | Decide(handle: seq<u8>, decision: Option<Decision>, now: u64)
    | WroteDecision(handle: seq<u8>, now: u64)
    | Cancelling(handle: seq<u8>, now: u64)
    | Advance(now: u64)
    | Shutdown

  /** The part of a call after the deadline check. */
  function AfterCheck(c: Config, b: Attempt, crypto: Crypto, call: Call, answers: Answers): Step
    requires !call.Shutdown?
  {
    match call
    case Start(now) => Started(c, b, now)
    case Receive(bytes, now) => Received(c, b, crypto, bytes, now, answers)
    case WroteAck(handle, now) => AckWritten(c, b, crypto, handle, now, answers)
    case Decide(handle, decision, now) => Decided(c, b, crypto, handle, decision, now)
    case WroteDecision(handle, now) => DecisionWritten(b, handle, now, answers)
    case Cancelling(handle, now) => Cancel(b, handle)
    case Advance(now) => Plain(b)
  }

  function Perform(c: Config, a: Attempt, crypto: Crypto, call: Call, answers: Answers): Step {
    if call.Shutdown? then if Terminal(a.phase) then Plain(a) else Close(a, Cancelled)
    else
      var (b, ended) := CheckDeadline(a, call.now, answers);
      if ended.Some? then ended.value else AfterCheck(c, b, crypto, call, answers)
  }
}
