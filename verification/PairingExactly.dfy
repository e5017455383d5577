/** When two ends can pair at all. */
module PairingExactly {
  import opened Common
  import opened PairingWire
  import opened PairingMessages
  import opened PairingAttempt
  import opened PairingAgreement
  import opened PairingRuns
  import opened PairingStages
  import opened PairingPossible

  /** What an attempt that got this far has learnt: at the hellos, that the peer's key is the one it authenticated; at
      the prompt, that the secrets of the context can be derived. */
  predicate Cleared(a: Attempt, role: Role, ends: Ends, crypto: Crypto) {
    var c, peer := ConfigOf(ends, role), ConfigOf(ends, Opposite(role));
    && (a.phase == Selecting || a.phase == AwaitingDecisions ==> c.peerKey == peer.key)
    && (a.phase == AwaitingDecisions ==> a.known.context.Some? && Derives(crypto, a.known.context.value))
  }

  lemma DecodedKey(f: Frame, role: Role, key: Bytes32, validKey: seq<u8> -> bool)
    ensures var r := DecodeHello(f, role, key, validKey); r.Ok? ==> r.value.key == key && validKey(key)
  {
    hide OfferOk, DecodeCapabilities, DecodeLimits;
  }

  lemma HelloClears(a: Attempt, f: Frame, now: u64, role: Role, ends: Ends, crypto: Crypto)
    requires Matched(ends) && Cleared(a, role, ends, crypto) && BringsHello(f, role, ends, crypto)
    ensures Cleared(ReceiveHello(ConfigOf(ends, role), a, crypto, f, now).attempt, role, ends, crypto)
  {
    hide DecodeHello, SelectBetween, Encoded;
    DecodedKey(f, Opposite(role), ConfigOf(ends, role).peerKey, crypto.validKey);
  }

  lemma CompleteClears(a: Attempt, now: u64, answers: Answers, role: Role, ends: Ends, crypto: Crypto)
    requires Cleared(a, role, ends, crypto) && a.phase == Selecting
    ensures Cleared(CompleteSelection(ConfigOf(ends, role), a, crypto, now, answers).attempt, role, ends, crypto)
  {
  }

  lemma SelectionClears(a: Attempt, f: Frame, now: u64, answers: Answers, role: Role, ends: Ends, crypto: Crypto)
    requires Cleared(a, role, ends, crypto)
    ensures Cleared(ReceiveSelection(ConfigOf(ends, role), a, crypto, f, now, answers).attempt, role, ends, crypto)
  {
    hide CompleteSelection, DecodeSelection, Encoded;
    if a.phase == Selecting {
      CompleteClears(a, now, answers, role, ends, crypto);
    }
  }

  lemma DecisionClears(a: Attempt, f: Frame, now: u64, answers: Answers, role: Role, ends: Ends, crypto: Crypto)
    requires Cleared(a, role, ends, crypto)
    ensures Cleared(ReceiveDecision(ConfigOf(ends, role), a, crypto, f, now, answers).attempt, role, ends, crypto)
    ensures Cleared(ReceiveAbort(a, f).attempt, role, ends, crypto)
  {
    hide DecodeDecision, VerifyConfirmation, DecodeAbort, Derives;
  }

  lemma ReceivedClears(a: Attempt, bytes: seq<u8>, now: u64, answers: Answers, role: Role, ends: Ends, crypto: Crypto,
                       decided: Option<Decision>)
    requires Matched(ends) && Cleared(a, role, ends, crypto) && Honest(bytes, Opposite(role), ends, crypto, decided)
    ensures Cleared(Received(ConfigOf(ends, role), a, crypto, bytes, now, answers).attempt, role, ends, crypto)
  {
    hide ParseFrame, ReceiveHello, ReceiveSelection, ReceiveDecision, ReceiveAbort, Honest, BringsHello, Derives;
    if ParseFrame(bytes).Ok? && a.traffic.nextIn < U32_MAX {
      var b, f := Took(a, |bytes|), ParseFrame(bytes).value;
      if f.kind == HELLO {
        HonestHello(bytes, role, ends, crypto, decided);
        HelloClears(b, f, now, role, ends, crypto);
      }
      SelectionClears(b, f, now, answers, role, ends, crypto);
      DecisionClears(b, f, now, answers, role, ends, crypto);
    }
  }

  lemma OthersClear(a: Attempt, call: Call, answers: Answers, role: Role, ends: Ends, crypto: Crypto)
    requires Cleared(a, role, ends, crypto) && !call.Shutdown? && !call.Receive?
    ensures Cleared(AfterCheck(ConfigOf(ends, role), a, crypto, call, answers).attempt, role, ends, crypto)
  {
    hide CompleteSelection, Encoded, BuildConfirmation, OfferOk, Derives;
    if call.WroteAck? && a.phase == Selecting {
      CompleteClears(a.(choice := a.choice.(ackPending := false), lastNow := call.now), call.now, answers, role, ends,
                     crypto);
    }
  }

  lemma PerformClears(a: Attempt, call: Call, answers: Answers, role: Role, ends: Ends, crypto: Crypto,
                      peer: Option<Decision>)
    requires Matched(ends) && Cleared(a, role, ends, crypto)
    requires call.Receive? ==> Honest(call.bytes, Opposite(role), ends, crypto, peer)
    ensures Cleared(Perform(ConfigOf(ends, role), a, crypto, call, answers).attempt, role, ends, crypto)
  {
    hide AfterCheck, Encoded, Honest, Derives;
    if !call.Shutdown? {
      var b := Stamped(a, call.now);
      if call.Receive? {
        ReceivedClears(b, call.bytes, call.now, answers, role, ends, crypto, peer);
        assert AfterCheck(ConfigOf(ends, role), b, crypto, call, answers) ==
               Received(ConfigOf(ends, role), b, crypto, call.bytes, call.now,
                        answers) by { AfterReceive(b, call, answers, role, ends, crypto); }
      } else {
        OthersClear(b, call, answers, role, ends, crypto);
      }
    }
  }

  lemma AfterReceive(b: Attempt, call: Call, answers: Answers, role: Role, ends: Ends, crypto: Crypto)
    requires call.Receive?
    ensures AfterCheck(ConfigOf(ends, role), b, crypto, call, answers) ==
            Received(ConfigOf(ends, role), b, crypto, call.bytes, call.now, answers)
  {
    hide Received;
  }

  /** An end whose user has decided got through. */
  ghost predicate Proven(e: End, role: Role, ends: Ends, crypto: Crypto) {
    && Cleared(e.attempt, role, ends, crypto)
    && (e.decided.Some? ==>
          ConfigOf(ends, role).peerKey == ConfigOf(ends, Opposite(role)).key && Derivable(ends, crypto))
  }

  lemma ClearedProves(a: Attempt, role: Role, ends: Ends, crypto: Crypto)
    requires AttemptOk(a, role, ends, crypto) && Cleared(a, role, ends, crypto) && a.phase == AwaitingDecisions
    ensures ConfigOf(ends, role).peerKey == ConfigOf(ends, Opposite(role)).key && Derivable(ends, crypto)
  {
    hide IsContext, Derives;
    assert IsContext(ends, crypto, a.known.context.value);
  }

  lemma CalledProves(e: End, call: Call, answers: Answers, role: Role, ends: Ends, crypto: Crypto,
                     peer: Option<Decision>)
    requires Matched(ends) && EndOk(e, role, ends, crypto, peer) && Proven(e, role, ends, crypto)
    requires call.Receive? ==> Honest(call.bytes, Opposite(role), ends, crypto, peer)
    ensures Proven(Called(ConfigOf(ends, role), e, crypto, call, answers), role, ends, crypto)
  {
    hide Perform, Cleared, AttemptOk, Honest, Derivable;
    var c := ConfigOf(ends, role);
    PerformClears(e.attempt, call, answers, role, ends, crypto, peer);
    if Perform(c, e.attempt, crypto, call, answers).update.decided.Some? {
      PerformMoves(c, e.attempt, crypto, call, answers);
      ClearedProves(e.attempt, role, ends, crypto);
    }
  }

  ghost predicate ConnectionProven(s: Connection, ends: Ends, crypto: Crypto) {
    forall role: Role :: Proven(EndOf(s, role), role, ends, crypto)
  }

  lemma TakenProves(e: End, taken: nat, role: Role, ends: Ends, crypto: Crypto)
    requires Proven(e, role, ends, crypto)
    ensures Proven(e.(taken := taken), role, ends, crypto)
  {
    hide Cleared, Derivable;
  }

  lemma HappenProves(s: Connection, ends: Ends, crypto: Crypto, event: Event)
    requires Matched(ends) && ConnectionOk(s, ends, crypto) && ConnectionProven(s, ends, crypto)
    ensures ConnectionProven(Happen(s, ends, crypto, event), ends, crypto)
  {
    hide Proven, Honest, AttemptOk, Called;
    var role := event.role;
    var e, peer := EndOf(s, role), EndOf(s, Opposite(role));
    var call := if event.At? then event.call
      else Receive(if e.taken < |peer.sent| then peer.sent[e.taken] else [], event.now);
    if (event.At? && !call.Receive?) || (event.Deliver? && e.taken < |peer.sent|) {
      CalledProves(e, call, event.answers, role, ends, crypto, peer.decided);
      TakenProves(Called(ConfigOf(ends, role), e, crypto, call, event.answers), e.taken + 1, role, ends, crypto);
    }
  }

  lemma {:induction false} ExecuteProves(s: Connection, ends: Ends, crypto: Crypto, events: seq<Event>)
    requires Matched(ends) && ConnectionOk(s, ends, crypto) && ConnectionProven(s, ends, crypto)
    ensures ConnectionProven(Execute(s, ends, crypto, events), ends, crypto)
    decreases |events|
  {
    hide ConnectionOk, ConnectionProven, Happen;
    if |events| > 0 {
      HappenOk(s, ends, crypto, events[0]);
      HappenProves(s, ends, crypto, events[0]);
      ExecuteProves(Happen(s, ends, crypto, events[0]), ends, crypto, events[1..]);
    }
  }

  lemma PairedProves(s: Connection, ends: Ends, crypto: Crypto, role: Role)
    requires ConnectionOk(s, ends, crypto) && ConnectionProven(s, ends, crypto)
    requires EndOf(s, role).attempt.phase == PairedLocal
    ensures ends.initiator.peerKey == ends.responder.key && ends.responder.peerKey == ends.initiator.key
    ensures Derivable(ends, crypto)
  {
    hide AttemptOk, Shown, Honest, Authentic, InTime, Cleared, Derivable, IsContext;
    var e, peer := EndOf(s, role), EndOf(s, Opposite(role));
    assert EndOk(e, role, ends, crypto, peer.decided) && Proven(e, role, ends, crypto);
    assert Proven(peer, Opposite(role), ends, crypto);
  }

  /** Whatever happens to two attempts that could be made, neither pairs unless the two are compatible. */
  lemma OnlyCompatiblePair(ends: Ends, crypto: Crypto, events: seq<Event>, role: Role)
    requires Matched(ends) && Creatable(ends.initiator, crypto) && Creatable(ends.responder, crypto)
    requires EndOf(Execute(Opened(ends), ends, crypto, events), role).attempt.phase == PairedLocal
    ensures Compatible(ends, crypto)
  {
    assert ConnectionProven(Opened(ends), ends, crypto);
    hide Execute, Opened, ConnectionOk, ConnectionProven, Creatable;
    OpenedOk(ends, crypto);
    ExecuteOk(Opened(ends), ends, crypto, events);
    ExecuteProves(Opened(ends), ends, crypto, events);
    PairedProves(Execute(Opened(ends), ends, crypto, events), ends, crypto, role);
  }

  /** No call or delivery comes before its end was admitted. */
  predicate SinceAdmission(ends: Ends, events: seq<Event>) {
    forall i :: 0 <= i < |events| ==>
      (events[i].At? && events[i].call.Shutdown?) || ConfigOf(ends, events[i].role).admittedAt <= TimeOf(events[i])
  }

  /** Two ends can pair if and only if they are compatible. */
  lemma PairExactlyWhenCompatible(ends: Ends, crypto: Crypto)
    requires Matched(ends)
    ensures Compatible(ends, crypto) <==>
            && Creatable(ends.initiator, crypto) && Creatable(ends.responder, crypto)
            && exists events :: SinceAdmission(ends, events) && BothPaired(Execute(Opened(ends), ends, crypto, events))
  {
    hide Execute, Opened, Derivable, Creatable, BothAt;
    if Compatible(ends, crypto) {
      var deal := HasDeal(ends, crypto);
      OpenedAt(ends, crypto, deal);
      OpenedTimeLeft(ends, crypto);
      var events := Drive(Opened(ends), ends, crypto, deal, BEGIN, Marks(PAIRED, PAIRED));
      PairedExactly(Execute(Opened(ends), ends, crypto, events), ends, crypto, deal, Marks(PAIRED, PAIRED));
      assert SinceAdmission(ends, events) && BothPaired(Execute(Opened(ends), ends, crypto, events));
    }
    if Creatable(ends.initiator, crypto) && Creatable(ends.responder, crypto) {
      if events :| BothPaired(Execute(Opened(ends), ends, crypto, events)) {
        OnlyCompatiblePair(ends, crypto, events, Initiator);
      }
    }
  }
}
