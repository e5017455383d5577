/** The stages of an end whose user, socket and peer do what is asked of them, and the step from each to the next. */
module PairingStages {
  import opened Common
  import opened PairingWire
  import opened PairingMessages
  import opened PairingAttempt
  import opened PairingAgreement
  import opened PairingRuns

  // ----- The condition -----

  /** The secrets of a context can be derived. */
  predicate Derives(crypto: Crypto, digest: Bytes32) {
    && crypto.exportPairing(digest).Some? && crypto.sas(crypto.exportPairing(digest).value, digest).Ok?
    && crypto.exportConfirmation(digest).Some?
  }

  /** The two offers come to a selection, and its context to its secrets. */
  ghost predicate Derivable(ends: Ends, crypto: Crypto) {
    exists digest :: IsContext(ends, crypto, digest) && Derives(crypto, digest)
  }

  /** Both attempts can be made, each end authenticated the other's key, and the context and its secrets exist. */
  ghost predicate Compatible(ends: Ends, crypto: Crypto) {
    && Creatable(ends.initiator, crypto) && Creatable(ends.responder, crypto)
    && ends.initiator.peerKey == ends.responder.key && ends.responder.peerKey == ends.initiator.key
    && Derivable(ends, crypto)
  }

  /** What the two ends come to. */
  datatype Deal = Deal(selection: Selection, digest: Bytes32)

  ghost predicate IsDeal(deal: Deal, ends: Ends, crypto: Crypto) {
    && Selected(ends) == Ok(deal.selection) && CanonicalCapabilities(deal.selection.capabilities)
    && IsContext(ends, crypto, deal.digest) && Derives(crypto, deal.digest)
  }

  lemma HasDeal(ends: Ends, crypto: Crypto) returns (deal: Deal)
    requires Compatible(ends, crypto)
    ensures IsDeal(deal, ends, crypto)
  {
    var digest :| IsContext(ends, crypto, digest) && Derives(crypto, digest);
    SelectCanonical(ends.initiator.offer, ends.responder.offer);
    deal := Deal(Selected(ends).value, digest);
  }

  /** The two ends and what they come to. */
  ghost predicate Setting(ends: Ends, crypto: Crypto, deal: Deal) {
    Matched(ends) && Compatible(ends, crypto) && IsDeal(deal, ends, crypto)
  }

  /** What one end relies on. */
  predicate Dealt(c: Config, peer: Config, crypto: Crypto, deal: Deal) {
    && OfferOk(c.offer) && OfferOk(peer.offer) && peer.role == Opposite(c.role)
    && c.peerKey == peer.key && crypto.validKey(peer.key) && c.key != peer.key && !AllZero(c.handle)
    && SelectBetween(c, HelloOf(peer)) == Ok(deal.selection) && CanonicalCapabilities(deal.selection.capabilities)
    && Derives(crypto, deal.digest)
    && (var (i, r) := if c.role == Initiator then (c, peer) else (peer, c);
        crypto.context(HelloOf(i), HelloOf(r), deal.selection) == Ok(deal.digest))
  }

  lemma SettingDealt(ends: Ends, crypto: Crypto, deal: Deal, role: Role)
    requires Setting(ends, crypto, deal)
    ensures Dealt(ConfigOf(ends, role), ConfigOf(ends, Opposite(role)), crypto, deal)
    ensures ConfigOf(ends, role).role == role
  {
    hide Select, OfferOk, CanonicalCapabilities, Derives;
  }

  // ----- An attempt that gets on -----

  /** What admission, the replay reservation and the repository answer when nothing stands in the way. */
  const GRANTED := Answers(true, None, true, true)

  /** An attempt that heard `heard` frames and sent `out`. */
  predicate Stands(a: Attempt, c: Config, phase: Phase, out: nat, heard: nat) {
    && a.phase == phase && a.handle == c.handle
    && a.traffic.nextOut == out + 1 && a.traffic.nextIn == heard + 1
    && a.traffic.frames == heard && a.traffic.bytes <= heard * MAX_FRAME_SIZE
  }

  /** The attempt has ended, or has time left. */
  predicate Ahead(a: Attempt, now: u64) {
    Terminal(a.phase) || now < Deadline(a)
  }

  function Stamped(a: Attempt, now: u64): Attempt {
    a.(lastNow := Max(a.lastNow, now))
  }

  lemma Passes(c: Config, a: Attempt, crypto: Crypto, call: Call)
    requires !call.Shutdown? && !Terminal(a.phase) && call.now < Deadline(a)
    ensures Perform(c, a, crypto, call, GRANTED) == AfterCheck(c, Stamped(a, call.now), crypto, call, GRANTED)
    ensures call.now < Deadline(Stamped(a, call.now)) && Deadline(a) <= a.timers.absolute
  {
    hide AfterCheck, Encoded;
  }

  /** The attempt once a frame of `size` bytes was counted. */
  function Took(a: Attempt, size: nat): Attempt
    requires a.traffic.nextIn < U32_MAX
  {
    a.(traffic := a.traffic.(frames := a.traffic.frames + 1, bytes := a.traffic.bytes + size,
                             nextIn := a.traffic.nextIn + 1))
  }

  lemma Delivers(c: Config, a: Attempt, crypto: Crypto, f: Frame, phase: Phase, out: nat, heard: nat, now: u64)
    requires Stands(a, c, phase, out, heard) && phase != PairingTls && heard < 8
    requires Encodable(f) && f.sequence == heard + 1
    ensures Received(c, a, crypto, EncodeFrame(f), now, GRANTED) ==
            Dispatch(c, Took(a, |EncodeFrame(f)|), crypto, f, now, GRANTED)
    ensures Stands(Took(a, |EncodeFrame(f)|), c, phase, out, heard + 1)
  {
    hide Encodable, EncodeFrame, ParseFrame, Dispatch;
    ParseEncoded(f);
  }

  lemma EncodedIs(f: Frame)
    requires Encodable(f)
    ensures Encoded(f) == EncodeFrame(f) && |Encoded(f)| > 0
  {
    hide Encodable, EncodeFrame;
  }

  // ----- The stages of an end -----

  /** Where an end is: its phase, what it knows, its choice, the frames it sent and how many it took. */
  datatype Stage = Stage(phase: Phase, known: Known, choice: Choice, sent: seq<seq<u8>>, taken: nat)

  predicate IsAt(a: Attempt, c: Config, stage: Stage) {
    if stage.phase == PairedLocal then a.phase == PairedLocal
    else Stands(a, c, stage.phase, |stage.sent|, stage.taken) && a.known == stage.known && a.choice == stage.choice
  }

  predicate Reached(e: End, c: Config, stage: Stage) {
    e.sent == stage.sent && e.taken == stage.taken && IsAt(e.attempt, c, stage)
  }

  function HelloBytes(c: Config): seq<u8>
    requires OfferOk(c.offer)
  {
    Encoded(HelloFrame(1, HelloOf(c)))
  }

  function SelectionBytes(kind: u16, s: Selection): seq<u8>
    requires |s.capabilities| <= MAX_CAPABILITIES
  {
    Encoded(Frame(kind, 2, SelectionFields(s)))
  }

  function ConfirmFrame(c: Config, crypto: Crypto, digest: Bytes32): Frame
    requires Derives(crypto, digest)
  {
    Frame(DECISION, 3,
          DecisionFields(BuildConfirmation(crypto.hmac, crypto.exportConfirmation(digest).value, digest, c.role,
                                           Confirm)))
  }

  /** The frames an end sends, in order. */
  function Script(c: Config, peer: Config, crypto: Crypto, deal: Deal): (frames: seq<seq<u8>>)
    requires Dealt(c, peer, crypto, deal)
    ensures |frames| == 3
  {
    [ HelloBytes(c), SelectionBytes(if c.role == Initiator then SELECT else SELECT_ACK, deal.selection),
      Encoded(ConfirmFrame(c, crypto, deal.digest)) ]
  }

  lemma Scripted(c: Config, peer: Config, crypto: Crypto, deal: Deal)
    requires Dealt(c, peer, crypto, deal)
    ensures var s := Script(c, peer, crypto, deal);
            && s[..1] == [s[0]] && s[..2] == s[..1] + [s[1]] && s[..3] == s[..2] + [s[2]] && s[0] != [] && s[1] != []
            && s[2] != []
  {
    hide Encoded, OfferOk, Encodable, EncodeFrame, BuildConfirmation, DecisionFields, SelectionFields;
    OfferCanonical(c.offer);
    HelloEncodable(HelloOf(c), 1);
    EncodedIs(HelloFrame(1, HelloOf(c)));
    var kind := if c.role == Initiator then SELECT else SELECT_ACK;
    SelectionEncodable(deal.selection, kind, 2);
    EncodedIs(Frame(kind, 2, SelectionFields(deal.selection)));
    DecisionEncodable(BuildConfirmation(crypto.hmac, crypto.exportConfirmation(deal.digest).value, deal.digest, c.role,
                                        Confirm), 3);
    EncodedIs(ConfirmFrame(c, crypto, deal.digest));
  }

  /** How far an end is. Steps: created, started, hellos met, selection answered (a responder only), prompted, decided,
      decision written; and whether the peer's confirmation was heard. */
  datatype Mark = Mark(step: nat, confirmed: bool)

  const PAIRED := Mark(6, true)

  predicate MarkOk(m: Mark, role: Role) {
    m.step <= 6 && (m.step == 3 ==> role == Responder) && (m.confirmed ==> m.step >= 4)
  }

  function One(b: bool): nat {
    if b then 1 else 0
  }

  /** The frames an end has sent, and those it has taken. */
  function SentBy(role: Role, m: Mark): nat {
    if m.step == 0 then 0
    else if m.step == 1 || (m.step == 2 && role == Responder) then 1
    else if m.step <= 4 then 2
    else 3
  }

  function TakenBy(m: Mark): nat {
    (if m.step <= 1 then 0 else if m.step == 2 then 1 else 2) + One(m.confirmed)
  }

  function PhaseAt(m: Mark): Phase {
    if m == PAIRED then PairedLocal
    else if m.step == 0 then PairingTls
    else if m.step == 1 then ExchangingHellos
    else if m.step <= 3 then Selecting
    else AwaitingDecisions
  }

  /** What is known after the selection, and after the context was derived. */
  function Chosen(c: Config, peer: Config, deal: Deal): Known {
    Known(Some(HelloOf(c)), Some(HelloOf(peer)), Some(deal.selection), None, None)
  }

  function Bound(c: Config, peer: Config, crypto: Crypto, deal: Deal): Known {
    Chosen(c, peer, deal).(context := Some(deal.digest), exporter := crypto.exportConfirmation(deal.digest))
  }

  function KnownAt(c: Config, peer: Config, crypto: Crypto, deal: Deal, m: Mark): Known {
    if m.step == 0 then NOTHING
    else if m.step == 1 then NOTHING.(localHello := Some(HelloOf(c)))
    else if m.step <= 3 then Chosen(c, peer, deal)
    else Bound(c, peer, crypto, deal)
  }

  function ChoiceAt(m: Mark): Choice {
    Choice(if m.step >= 5 then Some(Confirm) else None, m.step == 3, m.step == 6, m.confirmed)
  }

  function StageOf(c: Config, peer: Config, crypto: Crypto, deal: Deal, m: Mark): Stage
    requires Dealt(c, peer, crypto, deal)
  {
    Stage(PhaseAt(m), KnownAt(c, peer, crypto, deal, m), ChoiceAt(m),
          Script(c, peer, crypto, deal)[..SentBy(c.role, m)], TakenBy(m))
  }

  /** The step of a call takes an attempt from one stage to the next, and leaves it time. */
  predicate Leads(r: Step, c: Config, before: Stage, next: Stage, now: u64) {
    && next.sent == (if r.update.frame == [] then before.sent else before.sent + [r.update.frame])
    && IsAt(r.attempt, c, next) && Ahead(r.attempt, now)
  }

  lemma Lands(e: End, c: Config, crypto: Crypto, call: Call, before: Stage, next: Stage, now: u64)
    requires Reached(e, c, before) && Leads(Perform(c, e.attempt, crypto, call, GRANTED), c, before, next, now)
    ensures var f := Called(c, e, crypto, call, GRANTED);
            Reached(f.(taken := next.taken), c, next) && Ahead(f.attempt, now) && f.taken == e.taken
  {
    hide Perform, IsAt, Ahead;
  }

  // ----- The parts of a step -----

  lemma WithinAhead(t: Timers, now: u64, timeout: u64)
    requires now < t.absolute && timeout > 0
    ensures now < Within(t, now, timeout)
  {
  }

  lemma SendsSelection(a: Attempt, c: Config, kind: u16, s: Selection, out: nat, heard: nat)
    requires Stands(a, c, Selecting, out, heard) && out < 8
    requires CanonicalCapabilities(s.capabilities) && (kind == SELECT || kind == SELECT_ACK)
    ensures var r := SendSelection(a, kind, s);
            && Stands(r.attempt, c, Selecting, out + 1, heard) && r.attempt == Sent(a)
            && r.update.frame == Encoded(Frame(kind, out + 1, SelectionFields(s))) != []
  {
    hide Encoded, Encodable, EncodeFrame;
    SelectionEncodable(s, kind, out + 1);
    EncodedIs(Frame(kind, out + 1, SelectionFields(s)));
  }

  lemma MeetsHello(a: Attempt, c: Config, peer: Config, crypto: Crypto, deal: Deal, now: u64)
    requires Stands(a, c, ExchangingHellos, 1, 1) && a.known == NOTHING.(localHello := Some(HelloOf(c)))
    requires now < Deadline(a)
    requires Dealt(c, peer, crypto, deal)
    ensures var r := ReceiveHello(c, a, crypto, HelloFrame(1, HelloOf(peer)), now);
            && r.attempt.known == Chosen(c, peer, deal) && r.attempt.choice == a.choice && now < Deadline(r.attempt)
            && Stands(r.attempt, c, Selecting, if c.role == Initiator then 2 else 1, 1)
            && r.update.frame == if c.role == Initiator then SelectionBytes(SELECT, deal.selection) else []
  {
    hide DecodeHello, SelectBetween, SendSelection, Encoded, OfferOk, CanonicalCapabilities, Derives;
    OfferCanonical(peer.offer);
    DecodeEncodedHello(HelloOf(peer), 1, Opposite(c.role), c.peerKey, crypto.validKey);
    WithinAhead(a.timers, now, IDLE_TIMEOUT);
    var b := a.(known := a.known.(remoteHello := Some(HelloOf(peer))));
    var d := Heard(b, now).(phase := Selecting, known := b.known.(selection := Some(deal.selection)));
    SendsSelection(d, c, SELECT, deal.selection, 1, 1);
  }

  /** Both ends derive the context and prompt. */
  lemma Completes(a: Attempt, c: Config, peer: Config, crypto: Crypto, deal: Deal, now: u64)
    requires Dealt(c, peer, crypto, deal) && now < a.timers.absolute
    requires Stands(a, c, Selecting, 2, 2) && a.known == Chosen(c, peer, deal)
    ensures var r := CompleteSelection(c, a, crypto, now, GRANTED);
            && Stands(r.attempt, c, AwaitingDecisions, 2, 2) && now < Deadline(r.attempt)
            && r.attempt.known == Bound(c, peer, crypto, deal) && r.attempt.choice == a.choice
            && r.update.frame == []
  {
    hide OfferOk, SelectBetween, CanonicalCapabilities;
    WithinAhead(a.timers, now, IDLE_TIMEOUT);
    WithinAhead(a.timers, now, DECISION_TIMEOUT);
  }

  lemma AcceptsSelection(a: Attempt, c: Config, deal: Deal, crypto: Crypto, now: u64)
    requires a.phase == Selecting && a.known.selection == Some(deal.selection)
    requires CanonicalCapabilities(deal.selection.capabilities)
    ensures var f := Frame(if c.role == Responder then SELECT else SELECT_ACK, 2, SelectionFields(deal.selection));
            var sent := SendSelection(a, SELECT_ACK, deal.selection);
            ReceiveSelection(c, a, crypto, f, now, GRANTED) ==
              if c.role == Initiator then CompleteSelection(c, a, crypto, now, GRANTED)
              else if Terminal(sent.attempt.phase) then sent
              else sent.(attempt := sent.attempt.(choice := a.choice.(ackPending := true), lastNow := now))
  {
    hide DecodeSelection, CompleteSelection, SendSelection, CanonicalCapabilities;
    DecodeEncodedSelection(deal.selection, if c.role == Responder then SELECT else SELECT_ACK, 2);
  }

  lemma Confirms(a: Attempt, c: Config, peer: Config, crypto: Crypto, deal: Deal, heard: nat, m: Mark, now: u64)
    requires Stands(a, c, AwaitingDecisions, 2, heard) && a.known == Bound(c, peer, crypto, deal)
    requires m.step == 4 && a.choice == ChoiceAt(m) && Derives(crypto, deal.digest) && !AllZero(c.handle)
    ensures var r := Decided(c, a, crypto, c.handle, Some(Confirm), now);
            && Stands(r.attempt, c, AwaitingDecisions, 3, heard) && Deadline(r.attempt) == Deadline(a)
            && r.attempt.known == a.known && r.attempt.choice == ChoiceAt(m.(step := 5))
            && r.update.frame == Encoded(ConfirmFrame(c, crypto, deal.digest)) != []
  {
    hide Encoded, Encodable, EncodeFrame, BuildConfirmation, DecisionFields;
    var f := ConfirmFrame(c, crypto, deal.digest);
    var built := BuildConfirmation(crypto.hmac, crypto.exportConfirmation(deal.digest).value, deal.digest, c.role,
                                   Confirm);
    DecisionEncodable(built, 3);
    EncodedIs(f);
  }

  lemma Writes(a: Attempt, c: Config, heard: nat, m: Mark, now: u64)
    requires Stands(a, c, AwaitingDecisions, 3, heard) && m.step == 5 && a.choice == ChoiceAt(m) && !AllZero(c.handle)
    requires a.known.context.Some?
    ensures var r := DecisionWritten(a, c.handle, now, GRANTED);
            && r.update.frame == []
            && (if m.confirmed then r.attempt.phase == PairedLocal
                else
                  && Stands(r.attempt, c, AwaitingDecisions, 3, heard) && Deadline(r.attempt) == Deadline(a)
                  && r.attempt.known == a.known && r.attempt.choice == ChoiceAt(m.(step := 6)))
  {
  }

  /** The peer's confirmation is heard: before the own decision, after it, or last of all. */
  lemma Hears(a: Attempt, c: Config, peer: Config, crypto: Crypto, deal: Deal, out: nat, m: Mark, now: u64)
    requires Stands(a, c, AwaitingDecisions, out, 3) && a.known == Bound(c, peer, crypto, deal)
    requires now < a.timers.absolute
    requires 4 <= m.step <= 6 && !m.confirmed && a.choice == ChoiceAt(m) && now < Deadline(a)
    requires Derives(crypto, deal.digest) && peer.role == Opposite(c.role)
    ensures var r := ReceiveDecision(c, a, crypto, ConfirmFrame(peer, crypto, deal.digest), now, GRANTED);
            && r.update.frame == []
            && (if m.step == 6 then r.attempt.phase == PairedLocal
                else
                  && Stands(r.attempt, c, AwaitingDecisions, out, 3) && now < Deadline(r.attempt)
                  && r.attempt.known == a.known && r.attempt.choice == ChoiceAt(m.(confirmed := true)))
  {
    hide DecodeDecision, VerifyConfirmation, BuildConfirmation, DecisionFields;
    var exporter := crypto.exportConfirmation(deal.digest).value;
    var built := BuildConfirmation(crypto.hmac, exporter, deal.digest, peer.role, Confirm);
    DecodeEncodedDecision(built, 3);
    VerifiesExactly(crypto.hmac, exporter, built, deal.digest, peer.role, Confirm);
    WithinAhead(a.timers, now, IDLE_TIMEOUT);
  }

  // ----- From stage to stage -----

  lemma StartLeads(a: Attempt, c: Config, peer: Config, crypto: Crypto, deal: Deal, now: u64)
    requires Dealt(c, peer, crypto, deal) && now < Deadline(a)
    requires IsAt(a, c, StageOf(c, peer, crypto, deal, Mark(0, false)))
    ensures Leads(Perform(c, a, crypto, Start(now), GRANTED), c, StageOf(c, peer, crypto, deal, Mark(0, false)),
                  StageOf(c, peer, crypto, deal, Mark(1, false)), now)
  {
    hide Perform, Encoded, OfferOk, Encodable, EncodeFrame, SelectBetween, Derives;
    Passes(c, a, crypto, Start(now));
    Scripted(c, peer, crypto, deal);
    HelloEncodable(HelloOf(c), 1);
    EncodedIs(HelloFrame(1, HelloOf(c)));
    WithinAhead(a.timers, now, FIRST_FRAME_TIMEOUT);
    WithinAhead(a.timers, now, SELECTION_TIMEOUT);
    WithinAhead(a.timers, now, IDLE_TIMEOUT);
  }

  lemma HelloLeads(a: Attempt, c: Config, peer: Config, crypto: Crypto, deal: Deal, now: u64)
    requires Dealt(c, peer, crypto, deal) && Dealt(peer, c, crypto, deal) && now < Deadline(a)
    requires IsAt(a, c, StageOf(c, peer, crypto, deal, Mark(1, false)))
    ensures Leads(Perform(c, a, crypto, Receive(Script(peer, c, crypto, deal)[0], now), GRANTED), c,
                  StageOf(c, peer, crypto, deal, Mark(1, false)), StageOf(c, peer, crypto, deal, Mark(2, false)), now)
  {
    hide Perform, Received, ReceiveHello, Encoded, Encodable, EncodeFrame, OfferOk, SelectBetween,
      CanonicalCapabilities, Derives;
    var f := HelloFrame(1, HelloOf(peer));
    Scripted(c, peer, crypto, deal);
    HelloEncodable(HelloOf(peer), 1);
    EncodedIs(f);
    Passes(c, a, crypto, Receive(EncodeFrame(f), now));
    Delivers(c, Stamped(a, now), crypto, f, ExchangingHellos, 1, 0, now);
    MeetsHello(Took(Stamped(a, now), |EncodeFrame(f)|), c, peer, crypto, deal, now);
  }

  lemma CanonicalLength(s: seq<u32>)
    ensures CanonicalCapabilities(s) ==> |s| <= MAX_CAPABILITIES
  {
  }

  lemma SelectionLeads(a: Attempt, c: Config, peer: Config, crypto: Crypto, deal: Deal, now: u64)
    requires Dealt(c, peer, crypto, deal) && Dealt(peer, c, crypto, deal) && now < Deadline(a)
    requires IsAt(a, c, StageOf(c, peer, crypto, deal, Mark(2, false)))
    ensures Leads(Perform(c, a, crypto, Receive(Script(peer, c, crypto, deal)[1], now), GRANTED), c,
                  StageOf(c, peer, crypto, deal, Mark(2, false)),
                  StageOf(c, peer, crypto, deal, Mark(if c.role == Initiator then 4 else 3, false)), now)
  {
    hide Perform, Received, ReceiveSelection, CompleteSelection, SendSelection, Encoded, Encodable, EncodeFrame,
      OfferOk, SelectBetween, CanonicalCapabilities, SelectionFields, Derives;
    var kind, out := if c.role == Responder then SELECT else SELECT_ACK, if c.role == Responder then 1 else 2;
    Scripted(c, peer, crypto, deal);
    CanonicalLength(deal.selection.capabilities);
    SelectionEncodable(deal.selection, kind, 2);
    var f := Frame(kind, 2, SelectionFields(deal.selection));
    EncodedIs(f);
    Passes(c, a, crypto, Receive(EncodeFrame(f), now));
    Delivers(c, Stamped(a, now), crypto, f, Selecting, out, 1, now);
    var b := Took(Stamped(a, now), |EncodeFrame(f)|);
    AcceptsSelection(b, c, deal, crypto, now);
    if c.role == Responder {
      SendsSelection(b, c, SELECT_ACK, deal.selection, 1, 2);
    } else {
      Completes(b, c, peer, crypto, deal, now);
    }
  }

  lemma AckLeads(a: Attempt, c: Config, peer: Config, crypto: Crypto, deal: Deal, now: u64)
    requires Dealt(c, peer, crypto, deal) && c.role == Responder && now < Deadline(a)
    requires IsAt(a, c, StageOf(c, peer, crypto, deal, Mark(3, false)))
    ensures Leads(Perform(c, a, crypto, WroteAck(c.handle, now), GRANTED), c,
                  StageOf(c, peer, crypto, deal, Mark(3, false)), StageOf(c, peer, crypto, deal, Mark(4, false)), now)
  {
    hide Perform, CompleteSelection, Script, OfferOk, SelectBetween, CanonicalCapabilities, Derives;
    Passes(c, a, crypto, WroteAck(c.handle, now));
    Completes(Stamped(a, now).(choice := a.choice.(ackPending := false), lastNow := now), c, peer, crypto, deal, now);
  }

  lemma DecideLeads(a: Attempt, c: Config, peer: Config, crypto: Crypto, deal: Deal, confirmed: bool, now: u64)
    requires Dealt(c, peer, crypto, deal) && now < Deadline(a)
    requires IsAt(a, c, StageOf(c, peer, crypto, deal, Mark(4, confirmed)))
    ensures Leads(Perform(c, a, crypto, Decide(c.handle, Some(Confirm), now), GRANTED), c,
                  StageOf(c, peer, crypto, deal, Mark(4, confirmed)),
                    StageOf(c, peer, crypto, deal, Mark(5, confirmed)), now)
  {
    hide Perform, Decided, Encoded, OfferOk, SelectBetween, CanonicalCapabilities, Derives;
    Scripted(c, peer, crypto, deal);
    Passes(c, a, crypto, Decide(c.handle, Some(Confirm), now));
    Confirms(Stamped(a, now), c, peer, crypto, deal, 2 + One(confirmed), Mark(4, confirmed), now);
  }

  lemma WriteLeads(a: Attempt, c: Config, peer: Config, crypto: Crypto, deal: Deal, confirmed: bool, now: u64)
    requires Dealt(c, peer, crypto, deal) && now < Deadline(a)
    requires IsAt(a, c, StageOf(c, peer, crypto, deal, Mark(5, confirmed)))
    ensures Leads(Perform(c, a, crypto, WroteDecision(c.handle, now), GRANTED), c,
                  StageOf(c, peer, crypto, deal, Mark(5, confirmed)),
                    StageOf(c, peer, crypto, deal, Mark(6, confirmed)), now)
  {
    hide Perform, DecisionWritten, Script, OfferOk, SelectBetween, CanonicalCapabilities, Derives;
    Passes(c, a, crypto, WroteDecision(c.handle, now));
    Writes(Stamped(a, now), c, 2 + One(confirmed), Mark(5, confirmed), now);
  }

  lemma ConfirmLeads(a: Attempt, c: Config, peer: Config, crypto: Crypto, deal: Deal, step: nat, now: u64)
    requires Dealt(c, peer, crypto, deal) && Dealt(peer, c, crypto, deal) && 4 <= step <= 6 && now < Deadline(a)
    requires IsAt(a, c, StageOf(c, peer, crypto, deal, Mark(step, false)))
    ensures Leads(Perform(c, a, crypto, Receive(Script(peer, c, crypto, deal)[2], now), GRANTED), c,
                  StageOf(c, peer, crypto, deal, Mark(step, false)), StageOf(c, peer, crypto, deal, Mark(step, true)),
                    now)
  {
    hide Perform, Received, ReceiveDecision, Encoded, Encodable, EncodeFrame, OfferOk, SelectBetween,
      CanonicalCapabilities, BuildConfirmation, DecisionFields;
    var f := ConfirmFrame(peer, crypto, deal.digest);
    var out := if step == 4 then 2 else 3;
    DecisionEncodable(BuildConfirmation(crypto.hmac, crypto.exportConfirmation(deal.digest).value, deal.digest,
                                        peer.role, Confirm), 3);
    EncodedIs(f);
    Passes(c, a, crypto, Receive(EncodeFrame(f), now));
    Delivers(c, Stamped(a, now), crypto, f, AwaitingDecisions, out, 2, now);
    Hears(Took(Stamped(a, now), |EncodeFrame(f)|), c, peer, crypto, deal, out, Mark(step, false), now);
  }

  /** A confirmation that comes while the acknowledgement is still being written closes the responder. */
  lemma EarlyCloses(a: Attempt, c: Config, peer: Config, crypto: Crypto, deal: Deal, now: u64)
    requires Dealt(c, peer, crypto, deal) && Dealt(peer, c, crypto, deal) && c.role == Responder && now < Deadline(a)
    requires IsAt(a, c, StageOf(c, peer, crypto, deal, Mark(3, false)))
    ensures var r := Perform(c, a, crypto, Receive(Script(peer, c, crypto, deal)[2], now), GRANTED);
            r.attempt.phase == Closed && r.update.error == Some(StateViolation)
  {
    hide Perform, Received, Encoded, Encodable, EncodeFrame, OfferOk, SelectBetween, CanonicalCapabilities,
      BuildConfirmation, DecisionFields, DecodeDecision, VerifyConfirmation;
    var f := ConfirmFrame(peer, crypto, deal.digest);
    DecisionEncodable(BuildConfirmation(crypto.hmac, crypto.exportConfirmation(deal.digest).value, deal.digest,
                                        peer.role, Confirm), 3);
    EncodedIs(f);
    Passes(c, a, crypto, Receive(EncodeFrame(f), now));
    Delivers(c, Stamped(a, now), crypto, f, Selecting, 2, 2, now);
  }
}
