/** A pairing attempt as an object: its fields changed step by step under its lock, proved
    against the steps of `PairingAttempt`. */
module PairingAttemptClass {
  import opened Common
  import opened Negotiating
  import opened PairingWire
  import opened PairingMessages
  import opened PairingAttempt

  class Implementation {
    const config: Config
    const crypto: Crypto
    var phase: Phase
    var handle: seq<u8>
    var known: Known
    var choice: Choice
    var traffic: Traffic
    var timers: Timers
    var lastNow: u64

    ghost function View(): Attempt
      reads this
    {
      Attempt(phase, handle, known, choice, traffic, timers, lastNow)
    }

    constructor (config: Config, crypto: Crypto)
      ensures View() == Created(config) && this.config == config && this.crypto == crypto
    {
      this.config, this.crypto := config, crypto;
      phase, handle, known, choice := PairingTls, config.handle, NOTHING, UNDECIDED;
      traffic := Traffic(1, 1, 0, 0);
      timers := Timers(Min(config.windowDeadline, SaturatingAdd(config.admittedAt, COMPLETE_TIMEOUT)), 0, 0, 0, 0);
      lastNow := config.admittedAt;
    }

    function Report(error: Option<PairingError>): Update
      reads this`phase
    {
      Update(phase, error, [], None, None, false, None)
    }

    method Finish(end: Phase)
      modifies this`phase, this`handle, this`known, this`choice
      ensures View() == Wiped(old(View()), end)
    {
      phase, handle, known, choice := end, [], NOTHING, UNDECIDED;
    }

    method CloseWith(error: PairingError) returns (update: Update)
      modifies this`phase, this`handle, this`known, this`choice
      ensures Step(View(), update) == Close(old(View()), error)
    {
      Finish(Closed);
      return Report(Some(error));
    }

    /** Whether the call ends with the deadline check, and how. */
    method Check(now: u64, answers: Answers) returns (ended: bool, update: Update)
      modifies this
      ensures var (b, end) := CheckDeadline(old(View()), now, answers);
              if end.Some? then ended && Step(View(), update) == end.value else !ended && View() == b
    {
      hide Encoded;
      lastNow := Max(lastNow, now);
      if Terminal(phase) {
        return true, Report(None);
      }
      if !answers.leaseActive {
        update := CloseWith(Busy);
        return true, update;
      }
      var deadline := timers.absolute;
      if phase == ExchangingHellos {
        deadline := Min(Min(Min(deadline, timers.firstFrame), timers.selection), timers.idle);
      } else if phase == Selecting {
        deadline := Min(Min(deadline, timers.selection), timers.idle);
      } else if phase == AwaitingDecisions {
        deadline := Min(Min(deadline, timers.decision), timers.idle);
      }
      if now < deadline {
        return false, Report(None);
      }
      update := CloseWith(Timeout);
      return true, update.(frame := Encoded(AbortFrame(traffic.nextOut, 4)));
    }

    /** `next_outbound_sequence++`. */
    method TakeSequence() returns (sequence: u32)
      modifies this`traffic
      ensures sequence == old(traffic.nextOut) && View() == Sent(old(View()))
    {
      sequence := traffic.nextOut;
      traffic := traffic.(nextOut := NextSequence(sequence));
    }

    method Start(now: u64, answers: Answers) returns (update: Update)
      modifies this
      ensures Step(View(), update) == Perform(config, old(View()), crypto, Call.Start(now), answers)
    {
      hide Encoded, OfferOk, Deadline;
      var ended;
      ended, update := Check(now, answers);
      if ended {
        return;
      }
      if phase != PairingTls {
        update := CloseWith(StateViolation);
        return;
      }
      var hello := Hello(config.role, config.nonce, config.key, config.offer);
      known := known.(localHello := Some(hello));
      var sequence := TakeSequence();
      if !OfferOk(config.offer) || Encoded(HelloFrame(sequence, hello)) == [] {
        update := CloseWith(InternalFailure);
        return;
      }
      phase := ExchangingHellos;
      timers := timers.(firstFrame := Within(timers, now, FIRST_FRAME_TIMEOUT));
      timers := timers.(selection := Within(timers, now, SELECTION_TIMEOUT));
      timers := timers.(idle := Within(timers, now, IDLE_TIMEOUT));
      lastNow := now;
      return Report(None).(frame := Encoded(HelloFrame(sequence, hello)));
    }

    method CommitIfReady(answers: Answers) returns (update: Update)
      modifies this
      ensures Step(View(), update) == MaybeCommit(old(View()), answers)
    {
      if phase != AwaitingDecisions || choice.decision != Some(Confirm) || !choice.decisionWritten
         || !choice.peerConfirmed
         || known.context.None? {
        return Report(None);
      }
      if !answers.committed {
        update := CloseWith(InternalFailure);
        return update.(committing := true);
      }
      Finish(PairedLocal);
      return Report(None).(committing := true);
    }

    method Complete(now: u64, answers: Answers) returns (update: Update)
      modifies this
      ensures Step(View(), update) == CompleteSelection(config, old(View()), crypto, now, answers)
    {
      if known.localHello.None? || known.remoteHello.None? || known.selection.None? {
        update := CloseWith(InternalFailure);
        return;
      }
      var initiator := if config.role == Initiator then known.localHello.value else known.remoteHello.value;
      var responder := if config.role == Responder then known.localHello.value else known.remoteHello.value;
      var built := crypto.context(initiator, responder, known.selection.value);
      if built.Err? {
        update := CloseWith(built.error);
        return;
      }
      known := known.(context := Some(built.value));
      if answers.replay.Some? {
        update := CloseWith(answers.replay.value);
      } else if !answers.visible {
        update := CloseWith(Busy);
      } else {
        update := Show(built.value, now);
      }
      return update.(binding := Some(built.value));
    }

    method Show(digest: Bytes32, now: u64) returns (update: Update)
      modifies this
      ensures Step(View(), update) == Prompted(old(View()), digest, crypto, now)
    {
      var secret := crypto.exportPairing(digest);
      if secret.None? {
        update := CloseWith(InternalFailure);
        return;
      }
      var sas := crypto.sas(secret.value, digest);
      if sas.Err? {
        update := CloseWith(sas.error);
        return;
      }
      var confirmation := crypto.exportConfirmation(digest);
      if confirmation.None? {
        update := CloseWith(InternalFailure);
        return;
      }
      known := known.(exporter := confirmation);
      phase := AwaitingDecisions;
      timers := timers.(decision := Within(timers, now, DECISION_TIMEOUT));
      timers := timers.(idle := Within(timers, now, IDLE_TIMEOUT));
      lastNow := now;
      return Report(None).(prompt := Some(Prompt(handle, sas.value, timers.decision)));
    }

    method Send(kind: u16, s: Selection) returns (update: Update)
      modifies this
      ensures Step(View(), update) == SendSelection(old(View()), kind, s)
    {
      hide Encoded;
      var sequence := TakeSequence();
      var frame := SelectionFrame(kind, sequence, s);
      if frame.None? || Encoded(frame.value) == [] {
        update := CloseWith(InternalFailure);
        return;
      }
      return Report(None).(frame := Encoded(frame.value));
    }

    method TakeHello(f: Frame, now: u64) returns (update: Update)
      modifies this
      ensures Step(View(), update) == ReceiveHello(config, old(View()), crypto, f, now)
    {
      hide DecodeHello, Select, SendSelection;
      if phase != ExchangingHellos || known.remoteHello.Some? {
        update := CloseWith(StateViolation);
        return;
      }
      var decoded := DecodeHello(f, Opposite(config.role), config.peerKey, crypto.validKey);
      if decoded.Err? {
        update := CloseWith(decoded.error);
        return;
      }
      if config.key == decoded.value.key {
        update := CloseWith(CertificateRejected);
        return;
      }
      known := known.(remoteHello := Some(decoded.value));
      var selected := SelectBetween(config, decoded.value);
      if selected.Err? {
        update := CloseWith(selected.error);
        return;
      }
      known := known.(selection := Some(selected.value));
      phase := Selecting;
      timers := timers.(idle := Within(timers, now, IDLE_TIMEOUT));
      lastNow := now;
      update := Report(None);
      if config.role == Initiator {
        update := Send(SELECT, selected.value);
      }
    }

    method TakeSelection(f: Frame, now: u64, answers: Answers) returns (update: Update)
      modifies this
      ensures Step(View(), update) == ReceiveSelection(config, old(View()), crypto, f, now, answers)
    {
      hide DecodeSelection, CompleteSelection, Encoded;
      if phase != Selecting || known.selection.None?
         || f.kind != (if config.role == Responder then SELECT else SELECT_ACK) {
        update := CloseWith(StateViolation);
        return;
      }
      var own := known.selection.value;
      var received := DecodeSelection(f);
      if received.Err? {
        update := CloseWith(received.error);
        return;
      }
      if received.value != own {
        update := CloseWith(if VersionLess(received.value.version, own.version) then DowngradeDetected else Malformed);
        return;
      }
      if config.role == Responder {
        update := Send(SELECT_ACK, own);
        if !Terminal(phase) {
          choice := choice.(ackPending := true);
          lastNow := now;
        }
        return;
      }
      update := Complete(now, answers);
    }

    method TakeDecision(f: Frame, now: u64, answers: Answers) returns (update: Update)
      modifies this
      ensures Step(View(), update) == ReceiveDecision(config, old(View()), crypto, f, now, answers)
    {
      hide DecodeDecision, VerifyConfirmation, MaybeCommit;
      if phase != AwaitingDecisions || choice.peerConfirmed || known.context.None? || known.exporter.None? {
        update := CloseWith(StateViolation);
        return;
      }
      var decoded := DecodeDecision(f);
      if decoded.Err? {
        update := CloseWith(decoded.error);
        return;
      }
      var verified := VerifyConfirmation(crypto.hmac, known.exporter.value, decoded.value, known.context.value,
                                         Opposite(config.role));
      if verified.Err? {
        update := CloseWith(verified.error);
        return;
      }
      if verified.value == Reject {
        update := CloseWith(AuthenticatedReject);
        return;
      }
      choice := choice.(peerConfirmed := true);
      timers := timers.(idle := Within(timers, now, IDLE_TIMEOUT));
      lastNow := now;
      update := CommitIfReady(answers);
    }

    method TakeFrame(f: Frame, now: u64, answers: Answers) returns (update: Update)
      modifies this
      ensures Step(View(), update) == Dispatch(config, old(View()), crypto, f, now, answers)
    {
      hide DecodeAbort, ReceiveHello, ReceiveSelection, ReceiveDecision;
      if f.kind == ABORT {
        var aborted := DecodeAbort(f);
        if aborted.Err? {
          update := CloseWith(aborted.error);
        } else if aborted.value == 2 {
          update := CloseWith(Busy);
        } else if aborted.value == 3 {
          update := CloseWith(Cancelled);
        } else if aborted.value == 4 {
          update := CloseWith(Timeout);
        } else {
          update := CloseWith(InternalFailure);
        }
      } else if f.kind == HELLO {
        update := TakeHello(f, now);
      } else if f.kind == SELECT || f.kind == SELECT_ACK {
        update := TakeSelection(f, now, answers);
      } else if f.kind == DECISION {
        update := TakeDecision(f, now, answers);
      } else {
        update := CloseWith(StateViolation);
      }
    }

    method ReceiveFrame(bytes: seq<u8>, now: u64, answers: Answers) returns (update: Update)
      modifies this
      ensures Step(View(), update) == Perform(config, old(View()), crypto, Call.Receive(bytes, now), answers)
    {
      hide ParseFrame, Dispatch, Deadline, Encoded;
      var ended;
      ended, update := Check(now, answers);
      if ended {
        return;
      }
      if phase == PairingTls {
        update := CloseWith(StateViolation);
        return;
      }
      if traffic.frames == MAX_INBOUND_FRAMES || |bytes| > MAX_INBOUND_BYTES - traffic.bytes {
        update := CloseWith(LimitExceeded);
        return;
      }
      traffic := traffic.(frames := traffic.frames + 1, bytes := traffic.bytes + |bytes|);
      var parsed := ParseFrameBytes(bytes);
      if parsed.Err? {
        update := CloseWith(parsed.error);
        return;
      }
      if parsed.value.sequence != traffic.nextIn || traffic.nextIn == U32_MAX {
        update := CloseWith(SequenceViolation);
        return;
      }
      traffic := traffic.(nextIn := traffic.nextIn + 1);
      update := TakeFrame(parsed.value, now, answers);
    }

    method LocalSelectionAckWritten(candidate: seq<u8>, now: u64, answers: Answers) returns (update: Update)
      modifies this
      ensures Step(View(), update) == Perform(config, old(View()), crypto, WroteAck(candidate, now), answers)
    {
      hide CompleteSelection, Deadline, Encoded;
      var ended;
      ended, update := Check(now, answers);
      if ended {
        return;
      }
      if candidate != handle || AllZero(handle) {
        return Report(Some(StateViolation));
      }
      if config.role != Responder || phase != Selecting || !choice.ackPending {
        update := CloseWith(StateViolation);
        return;
      }
      choice := choice.(ackPending := false);
      lastNow := now;
      update := Complete(now, answers);
    }

    method Decide(candidate: seq<u8>, decision: Option<Decision>, now: u64, answers: Answers) returns (update: Update)
      modifies this
      ensures Step(View(), update) ==
              Perform(config, old(View()), crypto, Call.Decide(candidate, decision, now), answers)
    {
      hide BuildConfirmation, Deadline, Encoded;
      var ended;
      ended, update := Check(now, answers);
      if ended {
        return;
      }
      if candidate != handle || AllZero(handle) {
        return Report(Some(StateViolation));
      }
      if phase != AwaitingDecisions || known.context.None? || known.exporter.None? {
        update := CloseWith(StateViolation);
        return;
      }
      if choice.decision.Some? {
        return Report(if choice.decision == decision then None else Some(AlreadyDecided));
      }
      if decision.None? {
        update := CloseWith(StateViolation);
        return;
      }
      var confirmation := BuildConfirmation(crypto.hmac, known.exporter.value, known.context.value, config.role,
                                            decision.value);
      choice := choice.(decision := decision);
      var sequence := TakeSequence();
      var frame := Encoded(Frame(DECISION, sequence, DecisionFields(confirmation)));
      if frame == [] {
        update := CloseWith(InternalFailure);
        return;
      }
      if decision == Some(Reject) {
        update := CloseWith(LocalReject);
        return update.(frame := frame, decided := decision);
      }
      lastNow := now;
      return Report(None).(frame := frame, decided := decision);
    }

    method LocalDecisionWritten(candidate: seq<u8>, now: u64, answers: Answers) returns (update: Update)
      modifies this
      ensures Step(View(), update) == Perform(config, old(View()), crypto, WroteDecision(candidate, now), answers)
    {
      hide MaybeCommit, Deadline, Encoded;
      var ended;
      ended, update := Check(now, answers);
      if ended {
        return;
      }
      if candidate != handle || AllZero(handle) {
        return Report(Some(StateViolation));
      }
      if phase != AwaitingDecisions || choice.decision != Some(Confirm) {
        update := CloseWith(StateViolation);
        return;
      }
      choice := choice.(decisionWritten := true);
      lastNow := now;
      update := CommitIfReady(answers);
    }

    method CancelAttempt(candidate: seq<u8>, now: u64, answers: Answers) returns (update: Update)
      modifies this
      ensures Step(View(), update) == Perform(config, old(View()), crypto, Cancelling(candidate, now), answers)
    {
      hide Deadline, Encoded;
      var ended;
      ended, update := Check(now, answers);
      if ended {
        return;
      }
      if candidate != handle || AllZero(handle) {
        return Report(Some(StateViolation));
      }
      update := CloseWith(Cancelled);
      return update.(frame := Encoded(AbortFrame(traffic.nextOut, 3)));
    }

    method ShutDown() returns (update: Update)
      modifies this
      ensures forall answers :: Step(View(), update) == Perform(config, old(View()), crypto, Shutdown, answers)
    {
      if Terminal(phase) {
        return Report(None);
      }
      update := CloseWith(Cancelled);
    }
  }

  /** `PairingAttempt::Create`. */
  method Create(config: Config, crypto: Crypto, given: Given)
      returns (error: Option<PairingError>, attempt: Implementation?)
    ensures error == CreateError(config, crypto, given) && (error.None? <==> attempt != null)
    ensures attempt != null ==> fresh(attempt) && Creatable(config, crypto)
    ensures attempt != null ==>
            attempt.View() == Created(config) && attempt.config == config && attempt.crypto == crypto
  {
    hide OfferOk;
    if !given.ready || !given.leased {
      return Some(Busy), null;
    }
    if given.labelBytes > MAX_LABEL_BYTES || config.windowDeadline <= config.admittedAt
       || config.windowDeadline > SaturatingAdd(config.admittedAt, MAX_WINDOW) || !OfferOk(config.offer) {
      return Some(InternalFailure), null;
    }
    if !crypto.validKey(config.key) || config.key != given.leaseKey || config.peerKey != given.leasePeer
       || config.key == config.peerKey {
      return Some(CertificateRejected), null;
    }
    if !given.reserved {
      return Some(Busy), null;
    }
    if !given.drawn || AllZero(config.handle) || AllZero(config.nonce) {
      return Some(InternalFailure), null;
    }
    attempt := new Implementation(config, crypto);
    return None, attempt;
  }
}
