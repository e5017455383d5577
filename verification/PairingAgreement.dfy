/** Two pairing attempts at the ends of one connection, in every interleaving. */
module PairingAgreement {
  import opened Common
  import opened PairingWire
  import opened PairingMessages
  import opened PairingAttempt

  /** The two ends of a connection. */
  datatype Ends = Ends(initiator: Config, responder: Config)

  function ConfigOf(ends: Ends, role: Role): Config {
    if role == Initiator then ends.initiator else ends.responder
  }

  ghost predicate Matched(ends: Ends) {
    ends.initiator.role == Initiator && ends.responder.role == Responder
  }

  function HelloOf(c: Config): Hello {
    Hello(c.role, c.nonce, c.key, c.offer)
  }

  /** The selection and the pairing context that both ends come to, if any. */
  function Selected(ends: Ends): Result<Selection, PairingError> {
    Select(ends.initiator.offer, ends.responder.offer)
  }

  ghost predicate IsContext(ends: Ends, crypto: Crypto, digest: Bytes32) {
    Selected(ends).Ok? && crypto.context(HelloOf(ends.initiator), HelloOf(ends.responder), Selected(ends).value) ==
      Ok(digest)
  }

  /** The short authentication string of a context. */
  ghost predicate IsSas(crypto: Crypto, digest: Bytes32, sas: seq<u16>) {
    crypto.exportPairing(digest).Some? && crypto.sas(crypto.exportPairing(digest).value, digest) == Ok(sas)
  }

  /** Some context of the connection has these words. */
  ghost predicate Authentic(ends: Ends, crypto: Crypto, sas: seq<u16>) {
    exists digest :: IsContext(ends, crypto, digest) && IsSas(crypto, digest, sas)
  }

  // ----- One end -----

  /** A commit, with the time of the call and the deadlines in force. */
  datatype Commit = Commit(now: u64, absolute: u64, decision: u64)

  /** A decision, with the context the attempt held and the prompts its user had been shown by then. */
  datatype Choosing = Choosing(decision: Decision, context: Option<Bytes32>, prompts: seq<Prompt>)

  /** An end: its attempt, the frames it sent, how many of its peer's it took, and what happened at it. */
  datatype End = End(attempt: Attempt, sent: seq<seq<u8>>, taken: nat, prompts: seq<Prompt>, decided: Option<Decision>,
                     chose: Option<Choosing>, commits: seq<Commit>)

  function Fresh(c: Config): End {
    End(Created(c), [], 0, [], None, None, [])
  }

  function CallTime(call: Call): u64 {
    if call.Shutdown? then 0 else call.now
  }

  /** The end after a call. */
  function Called(c: Config, e: End, crypto: Crypto, call: Call, answers: Answers): End {
    var step := Perform(c, e.attempt, crypto, call, answers);
    var u := step.update;
    End(step.attempt,
        if u.frame == [] then e.sent else e.sent + [u.frame],
        e.taken,
        if u.prompt.None? then e.prompts else e.prompts + [u.prompt.value],
        if u.decided.None? then e.decided else u.decided,
        if u.decided.None? then e.chose else Some(Choosing(u.decided.value, e.attempt.known.context, e.prompts)),
        if u.committing then e.commits + [Commit(CallTime(call), e.attempt.timers.absolute, e.attempt.timers.decision)]
          else e.commits)
  }

  /** The context and exporter an attempt holds are those of the connection. */
  ghost predicate HoldsContext(k: Known, phase: Phase, ends: Ends, crypto: Crypto) {
    && (k.context.Some? ==> IsContext(ends, crypto, k.context.value))
    && (phase == AwaitingDecisions ==>
          k.context.Some? && k.exporter.Some? && crypto.exportConfirmation(k.context.value) == k.exporter)
  }

  /** What an attempt knows comes from the two configurations. */
  ghost predicate Knows(k: Known, phase: Phase, role: Role, ends: Ends, crypto: Crypto) {
    && (k.localHello.Some? ==> k.localHello.value == HelloOf(ConfigOf(ends, role)))
    && (k.remoteHello.Some? ==> k.remoteHello.value == HelloOf(ConfigOf(ends, Opposite(role))))
    && (k.selection.Some? ==> Selected(ends) == Ok(k.selection.value))
    && HoldsContext(k, phase, ends, crypto)
  }

  /** Deadlines derived from the absolute one never pass it, nor it the pairing window. */
  ghost predicate Timed(t: Timers, c: Config) {
    t.absolute <= c.windowDeadline
  }

  ghost predicate AttemptOk(a: Attempt, role: Role, ends: Ends, crypto: Crypto) {
    Knows(a.known, a.phase, role, ends, crypto) && Timed(a.timers, ConfigOf(ends, role))
  }

  /** A frame that says what its sender's configuration and decision allow. */
  ghost predicate Honest(bytes: seq<u8>, role: Role, ends: Ends, crypto: Crypto, decided: Option<Decision>) {
    ParseFrame(bytes).Ok? &&
    var f := ParseFrame(bytes).value;
    && (f.kind == HELLO ==>
          OfferOk(ConfigOf(ends, role).offer) && f.fields == HelloFields(HelloOf(ConfigOf(ends, role))))
    && (f.kind == DECISION ==> decided.Some? && SaysDecision(f, role, ends, crypto, decided.value))
  }

  ghost predicate SaysDecision(f: Frame, role: Role, ends: Ends, crypto: Crypto, decision: Decision) {
    exists digest: Bytes32, exporter: Bytes32 ::
      && IsContext(ends, crypto, digest) && crypto.exportConfirmation(digest) == Some(exporter)
      && f.fields == DecisionFields(BuildConfirmation(crypto.hmac, exporter, digest, role, decision))
  }

  /** The state of the user's decision and of the commit at an end. */
  ghost predicate Settled(e: End, peer: Option<Decision>) {
    var a := e.attempt;
    && (a.phase == AwaitingDecisions ==> a.choice.decision == e.decided)
    && (a.phase == PairingTls || a.phase == ExchangingHellos || a.phase == Selecting ==>
        e.decided == None && a.choice.decision == None)
    && (a.choice.peerConfirmed ==> peer == Some(Confirm))
    && (!Terminal(a.phase) ==> e.commits == [])
    && |e.commits| <= 1
    && (a.phase == PairedLocal ==> |e.commits| == 1 && e.decided == Some(Confirm) && peer == Some(Confirm))
  }

  /** The decision was taken over the connection's context, after its words had been shown once. */
  ghost predicate Grounded(chose: Choosing, ends: Ends, crypto: Crypto) {
    && chose.context.Some? && IsContext(ends, crypto, chose.context.value)
    && |chose.prompts| == 1 && IsSas(crypto, chose.context.value, chose.prompts[0].sas)
  }

  /** Prompts come once, with the context that decisions are taken over. */
  ghost predicate Shown(e: End, ends: Ends, crypto: Crypto) {
    var a := e.attempt;
    && |e.prompts| <= 1 && (Early(a.phase) ==> e.prompts == [])
    && (a.phase == AwaitingDecisions ==>
          |e.prompts| == 1 && a.known.context.Some? && IsSas(crypto, a.known.context.value, e.prompts[0].sas))
    && (if e.decided.None? then e.chose.None?
        else e.chose.Some? && e.chose.value.decision == e.decided.value && Grounded(e.chose.value, ends, crypto))
  }

  ghost predicate InTime(commit: Commit, c: Config) {
    commit.now < commit.absolute <= c.windowDeadline && commit.now < commit.decision
  }

  ghost predicate EndOk(e: End, role: Role, ends: Ends, crypto: Crypto, peer: Option<Decision>) {
    && AttemptOk(e.attempt, role, ends, crypto) && Settled(e, peer) && Shown(e, ends, crypto)
    && (forall i :: 0 <= i < |e.sent| ==> Honest(e.sent[i], role, ends, crypto, e.decided))
    && (forall i :: 0 <= i < |e.prompts| ==> Authentic(ends, crypto, e.prompts[i].sas))
    && (forall i :: 0 <= i < |e.commits| ==> InTime(e.commits[i], ConfigOf(ends, role)))
    && (e.attempt.phase == PairedLocal ==> exists digest :: IsContext(ends, crypto, digest))
  }

  // ----- What an attempt knows -----

  lemma CloseOk(a: Attempt, error: PairingError, role: Role, ends: Ends, crypto: Crypto)
    requires AttemptOk(a, role, ends, crypto)
    ensures AttemptOk(Close(a, error).attempt, role, ends, crypto)
  {
  }

  lemma StartOk(a: Attempt, now: u64, role: Role, ends: Ends, crypto: Crypto)
    requires Matched(ends) && AttemptOk(a, role, ends, crypto)
    ensures AttemptOk(Started(ConfigOf(ends, role), a, now).attempt, role, ends, crypto)
  {
    hide Encoded, OfferOk;
  }

  lemma SendSelectionOk(a: Attempt, kind: u16, s: Selection, role: Role, ends: Ends, crypto: Crypto)
    requires AttemptOk(a, role, ends, crypto)
    ensures AttemptOk(SendSelection(a, kind, s).attempt, role, ends, crypto)
  {
    hide Encoded;
  }

  /** A hello frame that is accepted brings the peer's hello. */
  ghost predicate BringsHello(f: Frame, role: Role, ends: Ends, crypto: Crypto) {
    var r := DecodeHello(f, Opposite(role), ConfigOf(ends, role).peerKey, crypto.validKey);
    r.Ok? ==> r.value == HelloOf(ConfigOf(ends, Opposite(role)))
  }

  lemma HonestHello(bytes: seq<u8>, role: Role, ends: Ends, crypto: Crypto, decided: Option<Decision>)
    requires Honest(bytes, Opposite(role), ends, crypto, decided) && ParseFrame(bytes).value.kind == HELLO
    ensures BringsHello(ParseFrame(bytes).value, role, ends, crypto)
  {
    hide ParseFrame, DecodeHello, HelloFields, OfferOk, SaysDecision;
    var f, hello := ParseFrame(bytes).value, HelloOf(ConfigOf(ends, Opposite(role)));
    OfferCanonical(hello.offer);
    DecodeEncodedHello(hello, f.sequence, Opposite(role), ConfigOf(ends, role).peerKey, crypto.validKey);
    assert f == Frame(HELLO, f.sequence, HelloFields(hello));
  }

  lemma HelloOk(a: Attempt, f: Frame, now: u64, role: Role, ends: Ends, crypto: Crypto)
    requires Matched(ends) && AttemptOk(a, role, ends, crypto) && BringsHello(f, role, ends, crypto)
    ensures AttemptOk(ReceiveHello(ConfigOf(ends, role), a, crypto, f, now).attempt, role, ends, crypto)
  {
    hide DecodeHello, Select, SendSelection, IsContext;
    var c, hello := ConfigOf(ends, role), HelloOf(ConfigOf(ends, Opposite(role)));
    var b, selected := a.(known := a.known.(remoteHello := Some(hello))), SelectBetween(c, hello);
    assert selected == Selected(ends);
    if selected.Ok? {
      var d := Heard(b, now).(phase := Selecting, known := b.known.(selection := Some(selected.value)));
      SendSelectionOk(d, SELECT, selected.value, role, ends, crypto);
    }
  }

  lemma CompleteOk(a: Attempt, now: u64, answers: Answers, role: Role, ends: Ends, crypto: Crypto)
    requires Matched(ends) && AttemptOk(a, role, ends, crypto)
    ensures AttemptOk(CompleteSelection(ConfigOf(ends, role), a, crypto, now, answers).attempt, role, ends, crypto)
  {
    hide Select;
  }

  lemma CommitOk(a: Attempt, answers: Answers, role: Role, ends: Ends, crypto: Crypto)
    requires AttemptOk(a, role, ends, crypto)
    ensures AttemptOk(MaybeCommit(a, answers).attempt, role, ends, crypto)
  {
  }

  lemma SelectionOk(a: Attempt, f: Frame, now: u64, answers: Answers, role: Role, ends: Ends, crypto: Crypto)
    requires Matched(ends) && AttemptOk(a, role, ends, crypto)
    ensures AttemptOk(ReceiveSelection(ConfigOf(ends, role), a, crypto, f, now, answers).attempt, role, ends, crypto)
  {
    hide CompleteSelection, SendSelection, DecodeSelection, IsContext, Select;
    CompleteOk(a, now, answers, role, ends, crypto);
    if a.known.selection.Some? {
      SendSelectionOk(a, SELECT_ACK, a.known.selection.value, role, ends, crypto);
    }
  }

  lemma DecisionOk(a: Attempt, f: Frame, now: u64, answers: Answers, role: Role, ends: Ends, crypto: Crypto)
    requires AttemptOk(a, role, ends, crypto)
    ensures AttemptOk(ReceiveDecision(ConfigOf(ends, role), a, crypto, f, now, answers).attempt, role, ends, crypto)
  {
    hide MaybeCommit, DecodeDecision, VerifyConfirmation, IsContext, Select;
    CommitOk(Heard(a, now).(choice := a.choice.(peerConfirmed := true)), answers, role, ends, crypto);
  }

  lemma DispatchOk(a: Attempt, f: Frame, now: u64, answers: Answers, role: Role, ends: Ends, crypto: Crypto)
    requires Matched(ends) && AttemptOk(a, role, ends, crypto)
             && (f.kind == HELLO ==> BringsHello(f, role, ends, crypto))
    ensures AttemptOk(Dispatch(ConfigOf(ends, role), a, crypto, f, now, answers).attempt, role, ends, crypto)
  {
    hide ReceiveHello, ReceiveSelection, ReceiveDecision, ReceiveAbort, AttemptOk, BringsHello;
    if f.kind == HELLO {
      HelloOk(a, f, now, role, ends, crypto);
    }
    AbortOk(a, f, role, ends, crypto);
    SelectionOk(a, f, now, answers, role, ends, crypto);
    DecisionOk(a, f, now, answers, role, ends, crypto);
    CloseOk(a, StateViolation, role, ends, crypto);
  }

  lemma ReceivedOk(a: Attempt, bytes: seq<u8>, now: u64, answers: Answers, role: Role, ends: Ends, crypto: Crypto,
                   decided: Option<Decision>)
    requires Matched(ends) && AttemptOk(a, role, ends, crypto) && Honest(bytes, Opposite(role), ends, crypto, decided)
    ensures AttemptOk(Received(ConfigOf(ends, role), a, crypto, bytes, now, answers).attempt, role, ends, crypto)
  {
    hide ParseFrame, Dispatch, Honest, IsContext, Select, BringsHello;
    var b := a.(traffic := a.traffic.(frames := a.traffic.frames + 1, bytes := a.traffic.bytes + |bytes|));
    if ParseFrame(bytes).Ok? && a.traffic.nextIn < U32_MAX {
      var f := ParseFrame(bytes).value;
      if f.kind == HELLO {
        HonestHello(bytes, role, ends, crypto, decided);
      }
      DispatchOk(b.(traffic := b.traffic.(nextIn := a.traffic.nextIn + 1)), f, now, answers, role, ends, crypto);
    }
  }

  lemma AbortOk(a: Attempt, f: Frame, role: Role, ends: Ends, crypto: Crypto)
    requires AttemptOk(a, role, ends, crypto)
    ensures AttemptOk(ReceiveAbort(a, f).attempt, role, ends, crypto)
  {
    hide DecodeAbort;
  }

  lemma OthersOk(a: Attempt, call: Call, answers: Answers, role: Role, ends: Ends, crypto: Crypto)
    requires Matched(ends) && AttemptOk(a, role, ends, crypto)
    ensures call.WroteAck? ==>
              AttemptOk(AckWritten(ConfigOf(ends, role), a, crypto, call.handle, call.now, answers).attempt, role, ends,
                        crypto)
    ensures call.WroteDecision? ==>
            AttemptOk(DecisionWritten(a, call.handle, call.now, answers).attempt, role, ends, crypto)
    ensures call.Cancelling? ==> AttemptOk(Cancel(a, call.handle).attempt, role, ends, crypto)
  {
    hide CompleteSelection, MaybeCommit, Encoded, IsContext, Select;
    if call.WroteAck? {
      CompleteOk(a.(choice := a.choice.(ackPending := false), lastNow := call.now), call.now, answers, role, ends,
                 crypto);
    } else if call.WroteDecision? {
      CommitOk(a.(choice := a.choice.(decisionWritten := true), lastNow := call.now), answers, role, ends, crypto);
    }
  }

  lemma DecideOk(a: Attempt, handle: seq<u8>, decision: Option<Decision>, now: u64, role: Role, ends: Ends,
                 crypto: Crypto)
    requires AttemptOk(a, role, ends, crypto)
    ensures AttemptOk(Decided(ConfigOf(ends, role), a, crypto, handle, decision, now).attempt, role, ends, crypto)
  {
    hide Encoded, BuildConfirmation, IsContext, Select;
  }

  /** Every call keeps what an attempt knows to the two configurations. */
  lemma PerformOk(a: Attempt, call: Call, answers: Answers, role: Role, ends: Ends, crypto: Crypto,
                  peer: Option<Decision>)
    requires Matched(ends) && AttemptOk(a, role, ends, crypto)
    requires call.Receive? ==> Honest(call.bytes, Opposite(role), ends, crypto, peer)
    ensures AttemptOk(Perform(ConfigOf(ends, role), a, crypto, call, answers).attempt, role, ends, crypto)
  {
    hide Started, Received, AckWritten, Decided, DecisionWritten, Cancel, Encoded, IsContext, Select, Honest;
    if !call.Shutdown? {
      var b := a.(lastNow := Max(a.lastNow, call.now));
      assert AttemptOk(b, role, ends, crypto);
      OthersOk(b, call, answers, role, ends, crypto);
      if call.Start? {
        StartOk(b, call.now, role, ends, crypto);
      } else if call.Receive? {
        ReceivedOk(b, call.bytes, call.now, answers, role, ends, crypto, peer);
      } else if call.Decide? {
        DecideOk(b, call.handle, call.decision, call.now, role, ends, crypto);
      }
    }
  }

  // ----- What an end sends -----

  lemma EncodedParses(f: Frame)
    ensures Encoded(f) != [] ==> ParseFrame(Encoded(f)) == Ok(f)
  {
    hide Encodable, EncodeFrame, ParseFrame;
    if Encodable(f) {
      ParseEncoded(f);
    }
  }

  lemma OtherHonest(f: Frame, role: Role, ends: Ends, crypto: Crypto, decided: Option<Decision>)
    requires f.kind != HELLO && f.kind != DECISION && Encoded(f) != []
    ensures Honest(Encoded(f), role, ends, crypto, decided)
  {
    hide ParseFrame, Encoded;
    EncodedParses(f);
  }

  /** The frame of a step, if any, is honest for the decision known after it. */
  ghost predicate FrameOk(s: Step, role: Role, ends: Ends, crypto: Crypto, own: Option<Decision>) {
    s.update.frame != [] ==>
      Honest(s.update.frame, role, ends, crypto, if s.update.decided.Some? then s.update.decided else own)
  }

  lemma StartFrame(a: Attempt, now: u64, role: Role, ends: Ends, crypto: Crypto, own: Option<Decision>)
    requires Matched(ends)
    ensures FrameOk(Started(ConfigOf(ends, role), a, now), role, ends, crypto, own)
  {
    var c := ConfigOf(ends, role);
    hide ParseFrame, Encoded, OfferOk, HelloFields, SaysDecision;
    if OfferOk(c.offer) {
      EncodedParses(HelloFrame(a.traffic.nextOut, HelloOf(c)));
    }
  }

  lemma SelectionFrameOk(a: Attempt, kind: u16, s: Selection, role: Role, ends: Ends, crypto: Crypto,
                         own: Option<Decision>)
    requires kind == SELECT || kind == SELECT_ACK
    ensures FrameOk(SendSelection(a, kind, s), role, ends, crypto, own)
  {
    hide Encoded, Honest;
    var frame := SelectionFrame(kind, a.traffic.nextOut, s);
    if frame.Some? && Encoded(frame.value) != [] {
      OtherHonest(frame.value, role, ends, crypto, own);
    }
  }

  lemma QuietFrame(c: Config, a: Attempt, f: Frame, now: u64, answers: Answers, crypto: Crypto)
    ensures CompleteSelection(c, a, crypto, now, answers).update.frame == []
    ensures ReceiveDecision(c, a, crypto, f, now, answers).update.frame == []
    ensures ReceiveAbort(a, f).update.frame == [] && MaybeCommit(a, answers).update.frame == []
  {
    hide DecodeDecision, VerifyConfirmation, DecodeAbort;
  }

  lemma ReceivedFrame(a: Attempt, bytes: seq<u8>, now: u64, answers: Answers, role: Role, ends: Ends, crypto: Crypto,
                      own: Option<Decision>)
    ensures FrameOk(Received(ConfigOf(ends, role), a, crypto, bytes, now, answers), role, ends, crypto, own)
  {
    hide ParseFrame, Dispatch, Honest;
    var b := a.(traffic := a.traffic.(frames := a.traffic.frames + 1, bytes := a.traffic.bytes + |bytes|));
    if ParseFrame(bytes).Ok? && a.traffic.nextIn < U32_MAX {
      DispatchFrame(b.(traffic := b.traffic.(nextIn := a.traffic.nextIn + 1)), ParseFrame(bytes).value, now, answers,
                    role, ends, crypto, own);
    }
  }

  lemma DispatchFrame(a: Attempt, f: Frame, now: u64, answers: Answers, role: Role, ends: Ends, crypto: Crypto,
                      own: Option<Decision>)
    ensures FrameOk(Dispatch(ConfigOf(ends, role), a, crypto, f, now, answers), role, ends, crypto, own)
  {
    var c := ConfigOf(ends, role);
    hide Honest, CompleteSelection, ReceiveDecision, ReceiveAbort, SendSelection, DecodeHello, DecodeSelection,
      SelectBetween, MaybeCommit;
    QuietFrame(c, a, f, now, answers, crypto);
    if a.known.selection.Some? {
      SelectionFrameOk(a, SELECT_ACK, a.known.selection.value, role, ends, crypto, own);
    }
    if f.kind == HELLO {
      var r := DecodeHello(f, Opposite(c.role), c.peerKey, crypto.validKey);
      if r.Ok? && SelectBetween(c, r.value).Ok? {
        var b := a.(known := a.known.(remoteHello := Some(r.value)));
        var d := Heard(b, now).(phase := Selecting,
                                known := b.known.(selection := Some(SelectBetween(c, r.value).value)));
        SelectionFrameOk(d, SELECT, SelectBetween(c, r.value).value, role, ends, crypto, own);
      }
    }
  }

  lemma DecideFrame(a: Attempt, handle: seq<u8>, decision: Option<Decision>, now: u64, role: Role, ends: Ends,
                    crypto: Crypto, own: Option<Decision>)
    requires Matched(ends) && AttemptOk(a, role, ends, crypto)
    ensures FrameOk(Decided(ConfigOf(ends, role), a, crypto, handle, decision, now), role, ends, crypto, own)
  {
    hide ParseFrame, Encoded, BuildConfirmation, IsContext, DecisionFields, HelloFields, OfferOk;
    var k := a.known;
    if a.phase == AwaitingDecisions && decision.Some? {
      var c := BuildConfirmation(crypto.hmac, k.exporter.value, k.context.value, role, decision.value);
      var f := Frame(DECISION, a.traffic.nextOut, DecisionFields(c));
      EncodedParses(f);
      assert SaysDecision(f, role, ends, crypto, decision.value);
    }
  }

  /** Every frame an end sends is honest. */
  lemma PerformFrame(a: Attempt, call: Call, answers: Answers, role: Role, ends: Ends, crypto: Crypto,
                     own: Option<Decision>)
    requires Matched(ends) && AttemptOk(a, role, ends, crypto)
    ensures FrameOk(Perform(ConfigOf(ends, role), a, crypto, call, answers), role, ends, crypto, own)
  {
    hide Started, Received, Decided, Encoded, Honest, CompleteSelection, MaybeCommit, Knows;
    if !call.Shutdown? {
      var b, c := a.(lastNow := Max(a.lastNow, call.now)), ConfigOf(ends, role);
      StartFrame(b, call.now, role, ends, crypto, own);
      if Encoded(AbortFrame(b.traffic.nextOut, 4)) != [] {
        OtherHonest(AbortFrame(b.traffic.nextOut, 4), role, ends, crypto, own);
      }
      if Encoded(AbortFrame(b.traffic.nextOut, 3)) != [] {
        OtherHonest(AbortFrame(b.traffic.nextOut, 3), role, ends, crypto, own);
      }
      if call.Receive? {
        ReceivedFrame(b, call.bytes, call.now, answers, role, ends, crypto, own);
      } else if call.Decide? {
        DecideFrame(b, call.handle, call.decision, call.now, role, ends, crypto, own);
      } else if call.WroteAck? {
        QuietFrame(c, b.(choice := b.choice.(ackPending := false), lastNow := call.now), Frame(ABORT, 0, []), call.now,
                   answers, crypto);
      } else if call.WroteDecision? {
        QuietFrame(c, b.(choice := b.choice.(decisionWritten := true), lastNow := call.now), Frame(ABORT, 0, []),
                   call.now, answers, crypto);
      }
    }
  }

  // ----- Decisions, prompts and commits -----

  predicate Early(phase: Phase) {
    phase == PairingTls || phase == ExchangingHellos || phase == Selecting
  }

  /** How a step may move the decisions; `heard` when its frame is a verified confirmation of the peer. */
  ghost predicate Moves(a: Attempt, s: Step, heard: bool) {
    var b, u := s.attempt, s.update;
    && (u.decided.Some? ==>
          a.phase == AwaitingDecisions && a.choice.decision.None?
          && (b.phase == AwaitingDecisions || b.phase == Closed))
    && (b.phase == AwaitingDecisions ==> b.choice.decision == if u.decided.Some? then u.decided else a.choice.decision)
    && (Early(b.phase) ==> Early(a.phase) && b.choice.decision == a.choice.decision)
    && (b.choice.peerConfirmed ==> a.choice.peerConfirmed || heard)
    && (u.committing ==>
          a.phase == AwaitingDecisions && a.choice.decision == Some(Confirm) && (a.choice.peerConfirmed || heard)
            && Terminal(b.phase)
          && u.decided.None?)
    && (b.phase == PairedLocal ==> a.phase == PairedLocal || u.committing)
    && b.timers.absolute == a.timers.absolute
    && (b.phase == AwaitingDecisions ==> a.phase == AwaitingDecisions || Early(a.phase))
  }

  lemma CloseMoves(a: Attempt, error: PairingError, heard: bool)
    ensures Moves(a, Close(a, error), heard) && Moves(a, Plain(a), heard) && Moves(a, Rejected(a, error), heard)
  {
  }

  /** A step from `b` that only differs from `a` in what does not matter here. */
  lemma SameMoves(a: Attempt, b: Attempt, s: Step, heard: bool)
    requires Moves(b, s, heard) && a.phase == b.phase && a.choice.decision == b.choice.decision
    requires b.choice.peerConfirmed ==> a.choice.peerConfirmed || heard
    requires a.timers.absolute == b.timers.absolute
    ensures Moves(a, s, heard)
  {
  }

  lemma CommitMoves(a: Attempt, answers: Answers, heard: bool)
    ensures Moves(a, MaybeCommit(a, answers), heard)
  {
  }

  lemma CompleteMoves(c: Config, a: Attempt, crypto: Crypto, now: u64, answers: Answers)
    requires a.phase == Selecting
    ensures Moves(a, CompleteSelection(c, a, crypto, now, answers), false)
  {
  }

  lemma SendMoves(a: Attempt, kind: u16, s: Selection, choice: Choice, now: u64)
    requires a.phase == Selecting && choice == a.choice.(ackPending := choice.ackPending)
    ensures Moves(a, SendSelection(a, kind, s), false)
    ensures var sent := SendSelection(a, kind, s);
            !Terminal(sent.attempt.phase) ==>
              Moves(a, sent.(attempt := sent.attempt.(choice := choice, lastNow := now)), false)
  {
    hide Encoded;
  }

  lemma HelloMoves(c: Config, a: Attempt, crypto: Crypto, f: Frame, now: u64)
    ensures Moves(a, ReceiveHello(c, a, crypto, f, now), false)
  {
    hide DecodeHello, SelectBetween, Encoded;
  }

  lemma SelectionMoves(c: Config, a: Attempt, crypto: Crypto, f: Frame, now: u64, answers: Answers)
    ensures Moves(a, ReceiveSelection(c, a, crypto, f, now, answers), false)
  {
    hide DecodeSelection, CompleteSelection, SendSelection, Moves;
    CloseMoves(a, StateViolation, false);
    if a.phase == Selecting && a.known.selection.Some? {
      CompleteMoves(c, a, crypto, now, answers);
      SendMoves(a, SELECT_ACK, a.known.selection.value, a.choice.(ackPending := true), now);
      if DecodeSelection(f).Err? {
        CloseMoves(a, DecodeSelection(f).error, false);
      }
      CloseMoves(a, DowngradeDetected, false);
      CloseMoves(a, Malformed, false);
    }
  }

  /** The frame is a confirmation that verifies. */
  predicate HearsConfirm(c: Config, a: Attempt, crypto: Crypto, f: Frame) {
    && a.phase == AwaitingDecisions && a.known.context.Some? && a.known.exporter.Some? && DecodeDecision(f).Ok?
    && VerifyConfirmation(crypto.hmac, a.known.exporter.value, DecodeDecision(f).value, a.known.context.value,
                          Opposite(c.role)) == Ok(Confirm)
  }

  lemma DecisionMoves(c: Config, a: Attempt, crypto: Crypto, f: Frame, now: u64, answers: Answers)
    ensures Moves(a, ReceiveDecision(c, a, crypto, f, now, answers), HearsConfirm(c, a, crypto, f))
  {
    hide DecodeDecision, VerifyConfirmation, MaybeCommit;
    var b, heard := Heard(a, now).(choice := a.choice.(peerConfirmed := true)), HearsConfirm(c, a, crypto, f);
    CommitMoves(b, answers, heard);
    if heard {
      SameMoves(a, b, MaybeCommit(b, answers), heard);
    }
  }

  lemma DispatchMoves(c: Config, a: Attempt, crypto: Crypto, f: Frame, now: u64, answers: Answers)
    ensures Moves(a, Dispatch(c, a, crypto, f, now, answers), f.kind == DECISION && HearsConfirm(c, a, crypto, f))
  {
    hide ReceiveHello, ReceiveSelection, ReceiveDecision, DecodeAbort, Moves, HearsConfirm;
    HelloMoves(c, a, crypto, f, now);
    SelectionMoves(c, a, crypto, f, now, answers);
    DecisionMoves(c, a, crypto, f, now, answers);
    CloseMoves(a, StateViolation, false);
    if f.kind == ABORT {
      AbortMoves(a, f);
    }
  }

  lemma AbortMoves(a: Attempt, f: Frame)
    ensures Moves(a, ReceiveAbort(a, f), false)
  {
    hide DecodeAbort;
  }

  /** The call delivers a frame that is a confirmation that verifies. */
  predicate HearsCall(c: Config, a: Attempt, crypto: Crypto, call: Call) {
    call.Receive? && ParseFrame(call.bytes).Ok? && ParseFrame(call.bytes).value.kind == DECISION
    && HearsConfirm(c, a, crypto, ParseFrame(call.bytes).value)
  }

  lemma ReceivedMoves(c: Config, a: Attempt, crypto: Crypto, bytes: seq<u8>, now: u64, answers: Answers)
    ensures Moves(a, Received(c, a, crypto, bytes, now, answers), HearsCall(c, a, crypto, Receive(bytes, now)))
  {
    hide ParseFrame, Dispatch, DecodeDecision, VerifyConfirmation;
    var b := a.(traffic := a.traffic.(frames := a.traffic.frames + 1, bytes := a.traffic.bytes + |bytes|));
    if ParseFrame(bytes).Ok? && a.traffic.nextIn < U32_MAX {
      var d, f := b.(traffic := b.traffic.(nextIn := a.traffic.nextIn + 1)), ParseFrame(bytes).value;
      DispatchMoves(c, d, crypto, f, now, answers);
      SameMoves(a, d, Dispatch(c, d, crypto, f, now, answers), HearsCall(c, a, crypto, Receive(bytes, now)));
    }
  }

  lemma AckMoves(c: Config, a: Attempt, crypto: Crypto, handle: seq<u8>, now: u64, answers: Answers)
    ensures Moves(a, AckWritten(c, a, crypto, handle, now, answers), false)
  {
    hide CompleteSelection;
    if a.phase == Selecting {
      var b := a.(choice := a.choice.(ackPending := false), lastNow := now);
      CompleteMoves(c, b, crypto, now, answers);
      SameMoves(a, b, CompleteSelection(c, b, crypto, now, answers), false);
    }
  }

  lemma WrittenMoves(a: Attempt, handle: seq<u8>, now: u64, answers: Answers)
    ensures Moves(a, DecisionWritten(a, handle, now, answers), false)
  {
    hide MaybeCommit;
    var b := a.(choice := a.choice.(decisionWritten := true), lastNow := now);
    CommitMoves(b, answers, false);
    SameMoves(a, b, MaybeCommit(b, answers), false);
  }

  lemma DecideMoves(c: Config, a: Attempt, crypto: Crypto, handle: seq<u8>, decision: Option<Decision>, now: u64)
    ensures Moves(a, Decided(c, a, crypto, handle, decision, now), false)
    ensures Moves(a, Started(c, a, now), false) && Moves(a, Cancel(a, handle), false)
  {
    hide Encoded, BuildConfirmation, OfferOk;
  }

  lemma DeadlineMoves(a: Attempt, now: u64, answers: Answers)
    ensures CheckDeadline(a, now, answers).1.Some? ==> Moves(a, CheckDeadline(a, now, answers).1.value, false)
  {
    hide Encoded;
  }

  lemma PerformMoves(c: Config, a: Attempt, crypto: Crypto, call: Call, answers: Answers)
    ensures Moves(a, Perform(c, a, crypto, call, answers), HearsCall(c, a, crypto, call))
  {
    hide Started, Received, AckWritten, Decided, DecisionWritten, Cancel, Encoded, ParseFrame, HearsConfirm;
    CloseMoves(a, Cancelled, false);
    if !call.Shutdown? {
      DeadlineMoves(a, call.now, answers);
      var b := a.(lastNow := Max(a.lastNow, call.now));
      CloseMoves(b, Cancelled, false);
      PerformedMoves(c, a, b, crypto, call, answers);
    }
  }

  lemma PerformedMoves(c: Config, a: Attempt, b: Attempt, crypto: Crypto, call: Call, answers: Answers)
    requires !call.Shutdown? && b == a.(lastNow := b.lastNow)
    ensures Moves(a, AfterCheck(c, b, crypto, call, answers), HearsCall(c, a, crypto, call))
  {
    hide Started, Received, AckWritten, Decided, DecisionWritten, Cancel, ParseFrame;
    match call
    case Start(now) => DecideMoves(c, b, crypto, [], None, now);
    case Receive(bytes, now) => ReceivedMoves(c, b, crypto, bytes, now, answers);
    case WroteAck(handle, now) => AckMoves(c, b, crypto, handle, now, answers);
    case Decide(handle, decision, now) => DecideMoves(c, b, crypto, handle, decision, now);
    case WroteDecision(handle, now) => WrittenMoves(b, handle, now, answers);
    case Cancelling(handle, now) => DecideMoves(c, b, crypto, handle, None, now);
    case Advance(now) => CloseMoves(b, Cancelled, false);
  }

  /** A prompt, if there is one, shows the words of the attempt's context. */
  ghost predicate PromptOk(s: Step, crypto: Crypto) {
    s.update.prompt.Some? ==>
      s.attempt.known.context.Some? && IsSas(crypto, s.attempt.known.context.value, s.update.prompt.value.sas)
  }

  lemma CompletePrompt(c: Config, a: Attempt, crypto: Crypto, now: u64, answers: Answers)
    ensures PromptOk(CompleteSelection(c, a, crypto, now, answers), crypto)
  {
  }

  lemma NoPrompt(c: Config, a: Attempt, crypto: Crypto, f: Frame, now: u64, answers: Answers, handle: seq<u8>,
                 decision: Option<Decision>)
    ensures ReceiveHello(c, a, crypto, f, now).update.prompt == None && ReceiveAbort(a, f).update.prompt == None
    ensures ReceiveDecision(c, a, crypto, f, now, answers).update.prompt == None
    ensures DecisionWritten(a, handle, now, answers).update.prompt == None && Cancel(a, handle).update.prompt == None
    ensures Decided(c, a, crypto, handle, decision, now).update.prompt == None
    ensures Started(c, a, now).update.prompt == None
  {
    hide DecodeHello, DecodeDecision, DecodeAbort, VerifyConfirmation, SelectBetween, Encoded, BuildConfirmation,
      OfferOk;
  }

  lemma DispatchPrompt(c: Config, a: Attempt, crypto: Crypto, f: Frame, now: u64, answers: Answers)
    ensures PromptOk(Dispatch(c, a, crypto, f, now, answers), crypto)
  {
    hide ReceiveHello, ReceiveDecision, ReceiveAbort, CompleteSelection, DecodeSelection, Encoded, IsSas;
    NoPrompt(c, a, crypto, f, now, answers, [], None);
    CompletePrompt(c, a, crypto, now, answers);
  }

  lemma PerformPrompt(c: Config, a: Attempt, crypto: Crypto, call: Call, answers: Answers)
    ensures PromptOk(Perform(c, a, crypto, call, answers), crypto)
  {
    hide Started, Decided, DecisionWritten, Cancel, Dispatch, CompleteSelection, ParseFrame, Encoded, IsSas;
    if !call.Shutdown? {
      var b := a.(lastNow := Max(a.lastNow, call.now));
      if call.Receive? {
        var d := b.(traffic := b.traffic.(frames := b.traffic.frames + 1, bytes := b.traffic.bytes + |call.bytes|));
        if ParseFrame(call.bytes).Ok? && b.traffic.nextIn < U32_MAX {
          DispatchPrompt(c, d.(traffic := d.traffic.(nextIn := b.traffic.nextIn + 1)), crypto,
                         ParseFrame(call.bytes).value, call.now, answers);
        }
      } else if call.WroteAck? {
        CompletePrompt(c, b.(choice := b.choice.(ackPending := false), lastNow := call.now), crypto, call.now, answers);
      } else if call.Decide? {
        NoPrompt(c, b, crypto, Frame(ABORT, 0, []), call.now, answers, call.handle, call.decision);
      } else if call.Cancelling? || call.WroteDecision? {
        NoPrompt(c, b, crypto, Frame(ABORT, 0, []), call.now, answers, call.handle, None);
      } else {
        NoPrompt(c, b, crypto, Frame(ABORT, 0, []), call.now, answers, [], None);
      }
    }
  }

  /** A step shows a prompt exactly when it brings the attempt to await decisions; from then on the context stays. */
  ghost predicate Shows(a: Attempt, s: Step) {
    && (s.update.prompt.Some? <==> Early(a.phase) && s.attempt.phase == AwaitingDecisions)
    && (a.phase == AwaitingDecisions && s.attempt.phase == AwaitingDecisions ==>
        s.attempt.known.context == a.known.context)
  }

  lemma CompleteShows(c: Config, a: Attempt, crypto: Crypto, now: u64, answers: Answers)
    requires a.phase == Selecting
    ensures Shows(a, CompleteSelection(c, a, crypto, now, answers))
  {
  }

  lemma DispatchShows(c: Config, a: Attempt, crypto: Crypto, f: Frame, now: u64, answers: Answers)
    ensures Shows(a, Dispatch(c, a, crypto, f, now, answers))
  {
    hide CompleteSelection, DecodeHello, DecodeSelection, DecodeDecision, DecodeAbort, VerifyConfirmation,
      SelectBetween, Encoded;
    if a.phase == Selecting {
      CompleteShows(c, a, crypto, now, answers);
    }
  }

  lemma ReceivedShows(c: Config, a: Attempt, crypto: Crypto, bytes: seq<u8>, now: u64, answers: Answers)
    ensures Shows(a, Received(c, a, crypto, bytes, now, answers))
  {
    hide ParseFrame, Dispatch;
    if ParseFrame(bytes).Ok? && a.traffic.nextIn < U32_MAX {
      var b := a.(traffic := a.traffic.(frames := a.traffic.frames + 1, bytes := a.traffic.bytes + |bytes|));
      DispatchShows(c, b.(traffic := b.traffic.(nextIn := a.traffic.nextIn + 1)), crypto, ParseFrame(bytes).value, now,
                    answers);
    }
  }

  lemma PerformShows(c: Config, a: Attempt, crypto: Crypto, call: Call, answers: Answers)
    ensures Shows(a, Perform(c, a, crypto, call, answers))
  {
    hide Received, CompleteSelection, Encoded, BuildConfirmation, OfferOk;
    if !call.Shutdown? {
      var b := a.(lastNow := Max(a.lastNow, call.now));
      if call.Receive? {
        ReceivedShows(c, b, crypto, call.bytes, call.now, answers);
      } else if call.WroteAck? && b.phase == Selecting {
        CompleteShows(c, b.(choice := b.choice.(ackPending := false), lastNow := call.now), crypto, call.now, answers);
      }
    }
  }

  /** A commit is called for only while every deadline lies ahead. */
  lemma CommitInTime(c: Config, a: Attempt, crypto: Crypto, call: Call, answers: Answers)
    requires Perform(c, a, crypto, call, answers).update.committing
    ensures !call.Shutdown? && call.now < a.timers.absolute && call.now < a.timers.decision
  {
    PerformMoves(c, a, crypto, call, answers);
    hide AfterCheck, Encoded;
  }

  /** A confirmation that verifies, in a frame the peer sent, is the peer's own. */
  lemma HonestConfirm(a: Attempt, call: Call, role: Role, ends: Ends, crypto: Crypto, peer: Option<Decision>)
    requires Matched(ends) && AttemptOk(a, role, ends, crypto) && HearsCall(ConfigOf(ends, role), a, crypto, call)
    requires Honest(call.bytes, Opposite(role), ends, crypto, peer)
    ensures peer == Some(Confirm)
  {
    hide ParseFrame, IsContext, HelloFields, OfferOk, VerifyConfirmation, DecodeDecision;
    var f, sender := ParseFrame(call.bytes).value, Opposite(role);
    var digest: Bytes32, exporter: Bytes32 :|
      && IsContext(ends, crypto, digest) && crypto.exportConfirmation(digest) == Some(exporter)
      && f.fields == DecisionFields(BuildConfirmation(crypto.hmac, exporter, digest, sender, peer.value));
    var built := BuildConfirmation(crypto.hmac, exporter, digest, sender, peer.value);
    DecodeEncodedDecision(built, f.sequence);
    assert f == Frame(DECISION, f.sequence, DecisionFields(built));
    SameContext(ends, crypto, digest, a.known.context.value);
    VerifiesExactly(crypto.hmac, exporter, built, digest, sender, Confirm);
    assert built.message[33] == DecisionCode(peer.value);
    assert BuildConfirmation(crypto.hmac, exporter, digest, sender, Confirm).message[33] == DecisionCode(Confirm);
  }

  lemma SameContext(ends: Ends, crypto: Crypto, a: Bytes32, b: Bytes32)
    requires IsContext(ends, crypto, a) && IsContext(ends, crypto, b)
    ensures a == b
  {
  }
}
