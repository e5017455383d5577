/** Two-party agreement: what holds over every interleaving of two pairing attempts. */
module PairingRuns {
  import opened Common
  import opened PairingWire
  import opened PairingMessages
  import opened PairingAttempt
  import opened PairingAgreement

  // ----- One end -----

  /** A decision, once taken, stays. */
  predicate Grows(before: Option<Decision>, after: Option<Decision>) {
    before.Some? ==> after == before
  }

  lemma HonestGrows(bytes: seq<u8>, role: Role, ends: Ends, crypto: Crypto, before: Option<Decision>,
                    after: Option<Decision>)
    requires Honest(bytes, role, ends, crypto, before) && Grows(before, after)
    ensures Honest(bytes, role, ends, crypto, after)
  {
    hide ParseFrame, SaysDecision, HelloFields, OfferOk;
  }

  lemma PeerDecides(e: End, role: Role, ends: Ends, crypto: Crypto, before: Option<Decision>, after: Option<Decision>)
    requires EndOk(e, role, ends, crypto, before) && Grows(before, after)
    ensures EndOk(e, role, ends, crypto, after)
  {
    hide AttemptOk, Honest, IsContext, Authentic, InTime;
  }

  /** A call keeps the record of decisions and commits straight. */
  lemma CalledSettled(c: Config, e: End, crypto: Crypto, call: Call, answers: Answers, peer: Option<Decision>)
    requires Settled(e, peer) && (HearsCall(c, e.attempt, crypto, call) ==> peer == Some(Confirm))
    ensures Settled(Called(c, e, crypto, call, answers), peer)
    ensures Grows(e.decided, Called(c, e, crypto, call, answers).decided)
  {
    hide Perform, HearsCall;
    PerformMoves(c, e.attempt, crypto, call, answers);
  }

  lemma CalledSent(e: End, call: Call, answers: Answers, role: Role, ends: Ends, crypto: Crypto)
    requires Matched(ends) && AttemptOk(e.attempt, role, ends, crypto)
    requires forall i :: 0 <= i < |e.sent| ==> Honest(e.sent[i], role, ends, crypto, e.decided)
    requires Grows(e.decided, Called(ConfigOf(ends, role), e, crypto, call, answers).decided)
    ensures var f := Called(ConfigOf(ends, role), e, crypto, call, answers);
            forall i :: 0 <= i < |f.sent| ==> Honest(f.sent[i], role, ends, crypto, f.decided)
  {
    hide Perform, Honest, AttemptOk;
    var c := ConfigOf(ends, role);
    var f := Called(c, e, crypto, call, answers);
    PerformFrame(e.attempt, call, answers, role, ends, crypto, e.decided);
    forall i | 0 <= i < |e.sent| ensures Honest(e.sent[i], role, ends, crypto, f.decided) {
      HonestGrows(e.sent[i], role, ends, crypto, e.decided, f.decided);
    }
  }

  lemma CalledPrompts(e: End, call: Call, answers: Answers, role: Role, ends: Ends, crypto: Crypto)
    requires forall i :: 0 <= i < |e.prompts| ==> Authentic(ends, crypto, e.prompts[i].sas)
    requires AttemptOk(Called(ConfigOf(ends, role), e, crypto, call, answers).attempt, role, ends, crypto)
    ensures var f := Called(ConfigOf(ends, role), e, crypto, call, answers);
            forall i :: 0 <= i < |f.prompts| ==> Authentic(ends, crypto, f.prompts[i].sas)
  {
    hide Perform, IsContext, IsSas;
    PerformPrompt(ConfigOf(ends, role), e.attempt, crypto, call, answers);
  }

  lemma CalledCommits(e: End, call: Call, answers: Answers, role: Role, ends: Ends, crypto: Crypto)
    requires AttemptOk(e.attempt, role, ends, crypto)
    requires forall i :: 0 <= i < |e.commits| ==> InTime(e.commits[i], ConfigOf(ends, role))
    requires e.attempt.phase == PairedLocal ==> exists digest :: IsContext(ends, crypto, digest)
    ensures var f := Called(ConfigOf(ends, role), e, crypto, call, answers);
            && (forall i :: 0 <= i < |f.commits| ==> InTime(f.commits[i], ConfigOf(ends, role)))
            && (f.attempt.phase == PairedLocal ==> exists digest :: IsContext(ends, crypto, digest))
  {
    hide Perform, IsContext, HearsCall;
    var c := ConfigOf(ends, role);
    PerformMoves(c, e.attempt, crypto, call, answers);
    if Perform(c, e.attempt, crypto, call, answers).update.committing {
      CommitInTime(c, e.attempt, crypto, call, answers);
      assert IsContext(ends, crypto, e.attempt.known.context.value);
    }
  }

  /** A call keeps prompts and decisions together. */
  lemma CalledShown(e: End, call: Call, answers: Answers, role: Role, ends: Ends, crypto: Crypto,
                    peer: Option<Decision>)
    requires AttemptOk(e.attempt, role, ends, crypto) && Shown(e, ends, crypto) && Settled(e, peer)
    ensures Shown(Called(ConfigOf(ends, role), e, crypto, call, answers), ends, crypto)
  {
    hide Perform, IsContext, IsSas, HearsCall;
    var c := ConfigOf(ends, role);
    PerformMoves(c, e.attempt, crypto, call, answers);
    PerformShows(c, e.attempt, crypto, call, answers);
    PerformPrompt(c, e.attempt, crypto, call, answers);
  }

  lemma CalledOk(e: End, call: Call, answers: Answers, role: Role, ends: Ends, crypto: Crypto, peer: Option<Decision>)
    requires Matched(ends) && EndOk(e, role, ends, crypto, peer)
    requires call.Receive? ==> Honest(call.bytes, Opposite(role), ends, crypto, peer)
    ensures var f := Called(ConfigOf(ends, role), e, crypto, call, answers);
            EndOk(f, role, ends, crypto, peer) && Grows(e.decided, f.decided)
  {
    hide AttemptOk, Honest, IsContext, Authentic, InTime, Settled, Shown, HearsCall, Perform;
    var c := ConfigOf(ends, role);
    CalledShown(e, call, answers, role, ends, crypto, peer);
    PerformOk(e.attempt, call, answers, role, ends, crypto, peer);
    if HearsCall(c, e.attempt, crypto, call) {
      IsDelivery(c, e.attempt, crypto, call);
      HonestConfirm(e.attempt, call, role, ends, crypto, peer);
    }
    CalledSettled(c, e, crypto, call, answers, peer);
    CalledSent(e, call, answers, role, ends, crypto);
    CalledPrompts(e, call, answers, role, ends, crypto);
    CalledCommits(e, call, answers, role, ends, crypto);
    hide Called;
  }

  lemma IsDelivery(c: Config, a: Attempt, crypto: Crypto, call: Call)
    requires HearsCall(c, a, crypto, call)
    ensures call.Receive?
  {
  }

  // ----- The connection -----

  datatype Connection = Connection(initiator: End, responder: End)

  /** A call at one end, or the delivery of the next frame its peer sent. */
  datatype Event = At(role: Role, call: Call, answers: Answers) | Deliver(role: Role, now: u64, answers: Answers)

  function EndOf(s: Connection, role: Role): End {
    if role == Initiator then s.initiator else s.responder
  }

  function WithEnd(s: Connection, role: Role, e: End): Connection {
    if role == Initiator then s.(initiator := e) else s.(responder := e)
  }

  function Happen(s: Connection, ends: Ends, crypto: Crypto, event: Event): Connection {
    var c, e, peer := ConfigOf(ends, event.role), EndOf(s, event.role), EndOf(s, Opposite(event.role));
    match event
    case At(role, call, answers) => if call.Receive? then s else WithEnd(s, role, Called(c, e, crypto, call, answers))
    case Deliver(role, now, answers) =>
      if e.taken >= |peer.sent| then s
      else WithEnd(s, role, Called(c, e, crypto, Receive(peer.sent[e.taken], now), answers).(taken := e.taken + 1))
  }

  function Execute(s: Connection, ends: Ends, crypto: Crypto, events: seq<Event>): Connection
    decreases |events|
  {
    if |events| == 0 then s else Execute(Happen(s, ends, crypto, events[0]), ends, crypto, events[1..])
  }

  function Opened(ends: Ends): Connection {
    Connection(PairingAgreement.Fresh(ends.initiator), PairingAgreement.Fresh(ends.responder))
  }

  ghost predicate ConnectionOk(s: Connection, ends: Ends, crypto: Crypto) {
    && EndOk(s.initiator, Initiator, ends, crypto, s.responder.decided)
    && EndOk(s.responder, Responder, ends, crypto, s.initiator.decided)
  }

  lemma OpenedOk(ends: Ends, crypto: Crypto)
    requires Matched(ends)
    ensures ConnectionOk(Opened(ends), ends, crypto)
  {
  }

  /** How many frames an end took does not matter to what it holds. */
  lemma TakenOk(e: End, taken: nat, role: Role, ends: Ends, crypto: Crypto, peer: Option<Decision>)
    requires EndOk(e, role, ends, crypto, peer)
    ensures EndOk(e.(taken := taken), role, ends, crypto, peer)
  {
    hide AttemptOk, Honest, IsContext, Authentic, InTime;
  }

  lemma SentHonest(e: End, i: nat, role: Role, ends: Ends, crypto: Crypto, peer: Option<Decision>)
    requires EndOk(e, role, ends, crypto, peer) && i < |e.sent|
    ensures Honest(e.sent[i], role, ends, crypto, e.decided)
  {
    hide AttemptOk, Honest, IsContext, Authentic, InTime, Settled, Shown;
  }

  /** One call at an end, with what its peer may conclude. */
  lemma BothOk(s: Connection, ends: Ends, crypto: Crypto, role: Role, call: Call, answers: Answers, taken: nat)
    requires Matched(ends) && ConnectionOk(s, ends, crypto)
    requires call.Receive? ==> Honest(call.bytes, Opposite(role), ends, crypto, EndOf(s, Opposite(role)).decided)
    ensures var f := Called(ConfigOf(ends, role), EndOf(s, role), crypto, call, answers);
            ConnectionOk(WithEnd(s, role, f), ends, crypto)
              && ConnectionOk(WithEnd(s, role, f.(taken := taken)), ends, crypto)
  {
    hide EndOk, Called, Honest;
    var e, peer := EndOf(s, role), EndOf(s, Opposite(role));
    CalledOk(e, call, answers, role, ends, crypto, peer.decided);
    var f := Called(ConfigOf(ends, role), e, crypto, call, answers);
    TakenOk(f, taken, role, ends, crypto, peer.decided);
    PeerDecides(peer, Opposite(role), ends, crypto, e.decided, f.decided);
  }

  lemma HappenOk(s: Connection, ends: Ends, crypto: Crypto, event: Event)
    requires Matched(ends) && ConnectionOk(s, ends, crypto)
    ensures ConnectionOk(Happen(s, ends, crypto, event), ends, crypto)
  {
    hide EndOk, Called, Honest;
    var role := event.role;
    var e, peer := EndOf(s, role), EndOf(s, Opposite(role));
    if event.Deliver? {
      if e.taken < |peer.sent| {
        SentHonest(peer, e.taken, Opposite(role), ends, crypto, e.decided);
        BothOk(s, ends, crypto, role, Receive(peer.sent[e.taken], event.now), event.answers, e.taken + 1);
      }
    } else if !event.call.Receive? {
      BothOk(s, ends, crypto, role, event.call, event.answers, 0);
    }
  }

  lemma {:induction false} ExecuteOk(s: Connection, ends: Ends, crypto: Crypto, events: seq<Event>)
    requires Matched(ends) && ConnectionOk(s, ends, crypto)
    ensures ConnectionOk(Execute(s, ends, crypto, events), ends, crypto)
    decreases |events|
  {
    hide ConnectionOk, Happen;
    if |events| > 0 {
      HappenOk(s, ends, crypto, events[0]);
      ExecuteOk(Happen(s, ends, crypto, events[0]), ends, crypto, events[1..]);
    }
  }

  /** Both users decided to confirm over one context, each after being shown its words once. */
  ghost predicate AgreedOn(ends: Ends, crypto: Crypto, a: Choosing, b: Choosing) {
    && a.decision == Confirm && b.decision == Confirm
    && a.context.Some? && a.context == b.context && IsContext(ends, crypto, a.context.value)
    && |a.prompts| == 1 && |b.prompts| == 1 && a.prompts[0].sas == b.prompts[0].sas
    && IsSas(crypto, a.context.value, a.prompts[0].sas)
  }

  lemma GroundedAgree(ends: Ends, crypto: Crypto, a: Choosing, b: Choosing)
    requires Grounded(a, ends, crypto) && Grounded(b, ends, crypto) && a.decision == Confirm && b.decision == Confirm
    ensures AgreedOn(ends, crypto, a, b)
  {
    SameContext(ends, crypto, a.context.value, b.context.value);
  }

  /** Two-party agreement. In every interleaving over in-order channels: an end that has paired did so, with one commit,
      after its user and its peer's user had both decided to confirm over one and the same context of the connection,
      each having been shown its words, and the same words, exactly once before; every two prompts show the same words;
      and each end asks for its commit at most once, before its window, absolute and decision deadlines. */
  lemma TwoPartyAgreement(ends: Ends, crypto: Crypto, events: seq<Event>, role: Role)
    requires Matched(ends)
    ensures var s := Execute(Opened(ends), ends, crypto, events);
            var e, peer, c := EndOf(s, role), EndOf(s, Opposite(role)), ConfigOf(ends, role);
            && (e.attempt.phase == PairedLocal ==>
                  |e.commits| == 1 && e.chose.Some? && peer.chose.Some?
                    && AgreedOn(ends, crypto, e.chose.value, peer.chose.value))
            && (forall i, j :: 0 <= i < |e.prompts| && 0 <= j < |peer.prompts| ==>
                e.prompts[i].sas == peer.prompts[j].sas)
            && |e.commits| <= 1 && (forall i :: 0 <= i < |e.commits| ==> InTime(e.commits[i], c))
  {
    hide Execute, Opened, AttemptOk, Honest, InTime, Authentic, IsContext, AgreedOn, Grounded;
    var s := Execute(Opened(ends), ends, crypto, events);
    OpenedOk(ends, crypto);
    ExecuteOk(Opened(ends), ends, crypto, events);
    var e, peer := EndOf(s, role), EndOf(s, Opposite(role));
    assert EndOk(e, role, ends, crypto, peer.decided) && EndOk(peer, Opposite(role), ends, crypto, e.decided);
    if e.attempt.phase == PairedLocal {
      GroundedAgree(ends, crypto, e.chose.value, peer.chose.value);
    }
    forall i, j | 0 <= i < |e.prompts| && 0 <= j < |peer.prompts| ensures e.prompts[i].sas == peer.prompts[j].sas {
      SameWords(ends, crypto, e.prompts[i].sas, peer.prompts[j].sas);
    }
  }

  lemma SameWords(ends: Ends, crypto: Crypto, x: seq<u16>, y: seq<u16>)
    requires Authentic(ends, crypto, x) && Authentic(ends, crypto, y)
    ensures x == y
  {
    var a :| IsContext(ends, crypto, a) && IsSas(crypto, a, x);
    var b :| IsContext(ends, crypto, b) && IsSas(crypto, b, y);
    SameContext(ends, crypto, a, b);
  }
}
