/** When a transcript completes: the converse of what completed transcripts are. */
module V1Possible {
  import opened Common
  import opened Negotiating
  import opened V1Tlv
  import opened V1Frame
  import opened V1Transcript
  import opened V1Runs

  // ----- Negotiations -----

  /** Two HELLOs have a version in common, and each offers what the other requires. */
  ghost predicate Compatible(a: HelloData, b: HelloData) {
    && !VersionLess(VersionMinimum(a.maximum, b.maximum), VersionMaximum(a.minimum, b.minimum))
    && forall x :: x in a.required || x in b.required ==> x in a.capabilities && x in b.capabilities
  }

  ghost predicate Accepts(a: HelloData, b: HelloData, n: RawNegotiation) {
    CheckNegotiation(n, a, b).Ok?
  }

  /** The proposal that two HELLOs call for. */
  function Proposal(a: HelloData, b: HelloData): RawNegotiation {
    var version := VersionMinimum(a.maximum, b.maximum);
    RawNegotiation(version.major, version.minor, Shared(a.capabilities, b.capabilities), Min(a.maxBody, b.maxBody),
                   Min(a.maxInFlight, b.maxInFlight), Min(a.maxStreams, b.maxStreams))
  }

  /** A proposal is accepted if and only if the HELLOs are compatible and it is the one they call for. */
  lemma OneProposal(a: HelloData, b: HelloData, n: RawNegotiation)
    requires HelloOk(a) && HelloOk(b)
    ensures Accepts(a, b, n) <==> Compatible(a, b) && n == Proposal(a, b)
  {
    var shared := Shared(a.capabilities, b.capabilities);
    SharedIncreasing(a.capabilities, b.capabilities);
    AdjacentIsIncreasing(shared);
    hide Increasing, AdjacentIncreasing;
    if Accepts(a, b, n) {
      forall x | x in a.required || x in b.required ensures x in a.capabilities && x in b.capabilities {
        assert x in shared;
      }
    }
    if Compatible(a, b) && n == Proposal(a, b) {
      assert forall i :: 0 <= i < |a.required| ==> a.required[i] in shared;
      assert forall i :: 0 <= i < |b.required| ==> b.required[i] in shared;
    }
  }

  // ----- What the two sides say -----

  /** What the two sides say, and what it comes to. */
  datatype Talk = Talk(a: RawHello, b: RawHello, n: RawNegotiation, hellos: Pair<HelloData>, negotiation: Negotiation)

  /** What was said so far came to what it should. */
  ghost predicate Came(p: Progress, t: Talk) {
    && (p.hello.fromInitiator ==> CheckHello(t.a, InitiatorToResponder) == Ok(t.hellos.fromInitiator))
    && (p.hello.fromResponder ==> CheckHello(t.b, ResponderToInitiator) == Ok(t.hellos.fromResponder))
    && (p.negotiated ==> CheckNegotiation(t.n, t.hellos.fromInitiator, t.hellos.fromResponder) == Ok(t.negotiation))
  }

  const SILENCE := Progress(Pair(false, false), false, false, Pair(false, false))
  const ALL := Progress(Pair(true, true), true, true, Pair(true, true))

  /** What may come next; a connection-scoped ERROR may come at any time until all is said. */
  predicate MayCome(p: Progress, d: Direction, kind: MessageType) {
    match kind
    case Hello => !p.hello.Get(d) && !p.negotiated
    case Negotiate => d == InitiatorToResponder && p.hello == Pair(true, true) && !p.negotiated
    case NegotiateAck => d == ResponderToInitiator && p.negotiated && !p.acknowledged
    case TransportFinished => p.acknowledged && !p.finished.Get(d)
    case Error => p != ALL
    case _ => false
  }

  function After(p: Progress, d: Direction, kind: MessageType): Progress {
    match kind
    case Hello => p.(hello := Set(p.hello, d, true))
    case Negotiate => p.(negotiated := true)
    case NegotiateAck => p.(acknowledged := true)
    case TransportFinished => p.(finished := Set(p.finished, d, true))
    case _ => p
  }

  function MessageOf(t: Talk, d: Direction, kind: MessageType): Message {
    match kind
    case Hello => HelloMessage(if d == InitiatorToResponder then t.a else t.b)
    case Negotiate => NegotiateMessage(t.n)
    case NegotiateAck => AckMessage(t.n)
    case TransportFinished => FinishedMessage(ExpectedRole(d))
    case _ => OtherMessage(kind)
  }

  /** Nothing is said out of turn. */
  predicate InTurn(p: Progress) {
    && (p.negotiated ==> p.hello == Pair(true, true)) && (p.acknowledged ==> p.negotiated)
    && (p.finished.fromInitiator || p.finished.fromResponder ==> p.acknowledged)
  }

  /** The next frame of a handshake: who sent it, what kind it is, and its bytes. */
  datatype Spoken = Spoken(direction: Direction, kind: MessageType, bytes: seq<u8>)

  ghost function ProgressAfter(talk: seq<Spoken>): Progress {
    if |talk| == 0 then SILENCE
    else
      var front, last := talk[..|talk| - 1], talk[|talk| - 1];
      After(ProgressAfter(front), last.direction, last.kind)
  }

  /** How many frames each side has sent. */
  function Sent(talk: seq<Spoken>): Pair<nat> {
    if |talk| == 0 then Pair(0, 0)
    else
      var front, d := Sent(talk[..|talk| - 1]), talk[|talk| - 1].direction;
      Set(front, d, front.Get(d) + 1)
  }

  /** The version of a frame: the negotiated one once it is acknowledged. */
  function VersionAt(p: Progress, t: Talk): Version {
    if p.acknowledged then t.negotiation.version else Version(1, 0)
  }

  /** `e` is a frame of the connection with the given number whose body reads as `m`, and within the limit once one was
      agreed. */
  ghost predicate Carries(e: seq<u8>, p: Progress, t: Talk, m: Message, id: nat) {
    && ParseEnvelope(e, VersionAt(p, t)).Ok?
    && var f := ParseEnvelope(e, VersionAt(p, t)).value;
       && f.messageId == id && f.streamId == 0 && (p.acknowledged ==> |f.body| <= t.negotiation.maxBody)
       && ReadBody(f) == Accepted(m, f.messageId, 0)
  }

  /** Every frame comes in turn, carries what its sender says, and is numbered in its direction. */
  ghost predicate Flawless(talk: seq<Spoken>, t: Talk) {
    |talk| == 0 ||
    (var front, last := talk[..|talk| - 1], talk[|talk| - 1];
     var p := ProgressAfter(front);
     && Flawless(front, t) && MayCome(p, last.direction, last.kind)
     && Carries(last.bytes, p, t, MessageOf(t, last.direction, last.kind), 1 + Sent(front).Get(last.direction)))
  }

  function Inputs(talk: seq<Spoken>): seq<(Direction, seq<u8>)> {
    if |talk| == 0 then [] else Inputs(talk[..|talk| - 1]) + [(talk[|talk| - 1].direction, talk[|talk| - 1].bytes)]
  }

  // ----- The state that what was said comes to -----

  function NextOf(sent: nat): u64 {
    Min(sent + 1, U64_MAX)
  }

  function StateOf(p: Progress, t: Talk, sent: Pair<nat>): State {
    INITIAL.(nextId := Pair(NextOf(sent.fromInitiator), NextOf(sent.fromResponder)),
             exhausted := Pair(sent.fromInitiator >= U64_MAX, sent.fromResponder >= U64_MAX),
             hellos := Pair(if p.hello.fromInitiator then Some(t.hellos.fromInitiator) else None,
                            if p.hello.fromResponder then Some(t.hellos.fromResponder) else None),
             negotiation := if p.negotiated then Some(t.negotiation) else None,
             acknowledged := p.acknowledged, finished := p.finished,
             complete := p.finished.fromInitiator && p.finished.fromResponder)
  }

  lemma SilenceIsInitial(t: Talk)
    ensures StateOf(SILENCE, t, Pair(0, 0)) == INITIAL && InTurn(SILENCE) && Came(SILENCE, t)
  {
  }

  lemma StaysInTurn(p: Progress, d: Direction, kind: MessageType)
    requires InTurn(p) && MayCome(p, d, kind)
    ensures InTurn(After(p, d, kind))
  {
  }

  lemma VersionExpected(p: Progress, t: Talk, sent: Pair<nat>)
    requires InTurn(p)
    ensures ExpectedVersion(StateOf(p, t, sent)) == VersionAt(p, t)
  {
  }

  /** The number of a frame is taken. */
  lemma Numbers(p: Progress, t: Talk, sent: Pair<nat>, d: Direction)
    requires sent.Get(d) < U64_MAX
    ensures var s := StateOf(p, t, sent);
            && !s.exhausted.Get(d) && s.nextId.Get(d) == sent.Get(d) + 1
            && ConsumeId(s, d) == StateOf(p, t, Set(sent, d, sent.Get(d) + 1))
  {
  }

  /** What the state lets come is what may come. */
  lemma TurnsExactly(p: Progress, t: Talk, sent: Pair<nat>, d: Direction, kind: MessageType, streamId: u32)
    requires InTurn(p) && p != ALL
    ensures EnvelopeStateError(StateOf(p, t, sent), d, kind, streamId) == NoError <==>
            MayCome(p, d, kind) && (kind.Error? ==> streamId == 0)
  {
  }

  lemma EchoesExactly(n: RawNegotiation, a: HelloData, b: HelloData, echo: RawNegotiation)
    requires CheckNegotiation(n, a, b).Ok?
    ensures AckError(echo, CheckNegotiation(n, a, b).value) == NoError <==> echo == n
  {
  }

  predicate Ready(s: State, m: Message) {
    && (m.NegotiateMessage? ==> s.hellos.fromInitiator.Some? && s.hellos.fromResponder.Some?)
    && (m.AckMessage? ==> s.negotiation.Some?)
  }

  lemma ReadyFor(p: Progress, t: Talk, sent: Pair<nat>, d: Direction, m: Message)
    requires InTurn(p) && MayCome(p, d, KindOf(m))
    ensures Ready(StateOf(p, t, sent), m)
  {
  }

  /** What is said in turn and comes to what it should is handled. */
  lemma Handles(p: Progress, t: Talk, sent: Pair<nat>, d: Direction, kind: MessageType)
    requires InTurn(p) && MayCome(p, d, kind) && Came(After(p, d, kind), t)
    ensures var s, m := StateOf(p, t, sent), MessageOf(t, d, kind);
            Ready(s, m) && Handle(s, d, m) == Ok(StateOf(After(p, d, kind), t, sent))
  {
    hide CheckHello, CheckNegotiation, AckError;
    if kind.NegotiateAck? {
      EchoesExactly(t.n, t.hellos.fromInitiator, t.hellos.fromResponder, t.n);
    }
  }

  /** The two agree on what was said. */
  predicate Alike(p: Progress, t: Talk, u: Talk) {
    && (p.hello.fromInitiator ==> t.a == u.a && t.hellos.fromInitiator == u.hellos.fromInitiator)
    && (p.hello.fromResponder ==> t.b == u.b && t.hellos.fromResponder == u.hellos.fromResponder)
    && (p.negotiated ==> t.n == u.n && t.negotiation == u.negotiation)
  }

  /** What is handled is what the talk says, or goes on to say. */
  lemma Handled(p: Progress, t: Talk, sent: Pair<nat>, d: Direction, m: Message) returns (u: Talk)
    requires InTurn(p) && Came(p, t) && MayCome(p, d, KindOf(m)) && Proper(m)
    requires Ready(StateOf(p, t, sent), m) && Handle(StateOf(p, t, sent), d, m).Ok?
    ensures Alike(p, t, u) && Came(After(p, d, KindOf(m)), u) && m == MessageOf(u, d, KindOf(m))
  {
    hide CheckHello, CheckNegotiation, AckError;
    match m
    case HelloMessage(raw) =>
      var hello := CheckHello(raw, d).value;
      u := if d == InitiatorToResponder then t.(a := raw, hellos := Set(t.hellos, d, hello))
           else t.(b := raw, hellos := Set(t.hellos, d, hello));
    case NegotiateMessage(raw) =>
      u := t.(n := raw, negotiation := CheckNegotiation(raw, t.hellos.fromInitiator, t.hellos.fromResponder).value);
    case AckMessage(raw) =>
      u := t;
      EchoesExactly(t.n, t.hellos.fromInitiator, t.hellos.fromResponder, raw);
    case _ =>
      u := t;
  }

  // ----- One frame -----

  lemma KindSaid(t: Talk, d: Direction, kind: MessageType, p: Progress)
    requires MayCome(p, d, kind)
    ensures KindOf(MessageOf(t, d, kind)) == kind && p != ALL
  {
  }

  /** Frames of a handshake belong to no stream. */
  lemma NoStream(e: seq<u8>, version: Version, p: Progress, d: Direction)
    requires ParseEnvelope(e, version).Ok? && MayCome(p, d, ParseEnvelope(e, version).value.kind)
    ensures var f := ParseEnvelope(e, version).value; f.kind.Error? || f.streamId == 0
  {
    hide ParseFixedHeader;
  }

  /** The limit on bodies, once one was agreed. */
  predicate Fits(s: State, f: Frame) {
    s.acknowledged && s.negotiation.Some? ==> |f.body| <= s.negotiation.value.maxBody
  }

  lemma ReceivedWhen(s: State, d: Direction, e: seq<u8>)
    ensures Receive(s, d, e).1.Accepted? <==>
            && ParseEnvelope(e, ExpectedVersion(s)).Ok?
            && var f := ParseEnvelope(e, ExpectedVersion(s)).value;
               && !s.exhausted.Get(d) && f.messageId == s.nextId.Get(d) && Fits(ConsumeId(s, d), f)
               && EnvelopeStateError(ConsumeId(s, d), d, f.kind, f.streamId) == NoError && ReadBody(f).Accepted?
    ensures Receive(s, d, e).1.Accepted? ==>
              Receive(s, d, e) == (ConsumeId(s, d), ReadBody(ParseEnvelope(e, ExpectedVersion(s)).value))
  {
    hide ParseEnvelope, EnvelopeStateError, ReadBody, ConsumeId;
  }

  lemma FitsExactly(p: Progress, t: Talk, sent: Pair<nat>, f: Frame)
    requires InTurn(p)
    ensures Fits(StateOf(p, t, sent), f) <==> (p.acknowledged ==> |f.body| <= t.negotiation.maxBody)
  {
  }

  lemma Exhausted(p: Progress, t: Talk, sent: Pair<nat>, d: Direction)
    ensures StateOf(p, t, sent).exhausted.Get(d) <==> sent.Get(d) >= U64_MAX
  {
  }

  /** A frame gets to its handler if and only if it may come and carries its message and number. */
  lemma ReceivedExactly(p: Progress, t: Talk, sent: Pair<nat>, d: Direction, e: seq<u8>, m: Message)
    requires InTurn(p) && p != ALL
    ensures (MayCome(p, d, KindOf(m)) && Carries(e, p, t, m, 1 + sent.Get(d))) <==>
            (Receive(StateOf(p, t, sent), d, e).1.Accepted? && Receive(StateOf(p, t, sent), d, e).1.message == m)
    ensures Receive(StateOf(p, t, sent), d, e).1.Accepted? ==>
              Receive(StateOf(p, t, sent), d, e).0 == StateOf(p, t, Set(sent, d, sent.Get(d) + 1))
              && Receive(StateOf(p, t, sent), d, e).1.streamId == 0
  {
    hide StateOf, ParseEnvelope, EnvelopeStateError, MayCome, ReadBody, InTurn, Fits, Receive, ExpectedVersion,
      VersionAt;
    VersionExpected(p, t, sent);
    Exhausted(p, t, sent, d);
    ReceivedWhen(StateOf(p, t, sent), d, e);
    if ParseEnvelope(e, VersionAt(p, t)).Ok? && sent.Get(d) < U64_MAX {
      var f := ParseEnvelope(e, VersionAt(p, t)).value;
      if MayCome(p, d, f.kind) {
        NoStream(e, VersionAt(p, t), p, d);
      }
      Numbers(p, t, sent, d);
      TurnsExactly(p, t, Set(sent, d, sent.Get(d) + 1), d, f.kind, f.streamId);
      FitsExactly(p, t, Set(sent, d, sent.Get(d) + 1), f);
    }
  }

  // ----- Runs -----

  /** A frame that says what it may is accepted. */
  lemma StepTakes(r: Run, p: Progress, t: Talk, sent: Pair<nat>, d: Direction, kind: MessageType, e: seq<u8>)
    requires InTurn(p) && r.state == StateOf(p, t, sent) && MayCome(p, d, kind) && Came(After(p, d, kind), t)
    requires Carries(e, p, t, MessageOf(t, d, kind), 1 + sent.Get(d))
    ensures var q := Step(r, d, e);
            q.state == StateOf(After(p, d, kind), t, Set(sent, d, sent.Get(d) + 1)) && q.rejected == r.rejected
  {
    hide MayCome, Carries, MessageOf, After, Came, Handle, Receive, InTurn, EnvelopeStateError;
    KindSaid(t, d, kind, p);
    var m := MessageOf(t, d, kind);
    ReceivedExactly(p, t, sent, d, e, m);
    Handles(p, t, Set(sent, d, sent.Get(d) + 1), d, kind);
  }

  lemma CameBefore(p: Progress, t: Talk, d: Direction, kind: MessageType)
    requires Came(After(p, d, kind), t)
    ensures Came(p, t)
  {
    hide CheckHello, CheckNegotiation;
  }

  lemma InputsSnoc(talk: seq<Spoken>, last: Spoken)
    ensures Inputs(talk + [last]) == Inputs(talk) + [(last.direction, last.bytes)]
    ensures ProgressAfter(talk + [last]) == After(ProgressAfter(talk), last.direction, last.kind)
    ensures Sent(talk + [last]) == Set(Sent(talk), last.direction, Sent(talk).Get(last.direction) + 1)
  {
    assert (talk + [last])[..|talk|] == talk;
  }

  lemma {:induction false} FlawlessReaches(talk: seq<Spoken>, t: Talk)
    requires Flawless(talk, t) && Came(ProgressAfter(talk), t)
    ensures var r := Execute(Inputs(talk));
            r.state == StateOf(ProgressAfter(talk), t, Sent(talk)) && r.rejected == 0 && InTurn(ProgressAfter(talk))
  {
    hide Came, Step, StateOf, Carries, MayCome, MessageOf, After, InTurn;
    if |talk| > 0 {
      var front, last := talk[..|talk| - 1], talk[|talk| - 1];
      var p, d := ProgressAfter(front), last.direction;
      CameBefore(p, t, d, last.kind);
      FlawlessReaches(front, t);
      StaysInTurn(p, d, last.kind);
      StepTakes(Execute(Inputs(front)), p, t, Sent(front), d, last.kind, last.bytes);
      assert Inputs(talk)[..|Inputs(front)|] == Inputs(front);
    } else {
      SilenceIsInitial(t);
    }
  }

  lemma AlikeBefore(p: Progress, d: Direction, kind: MessageType, t: Talk, u: Talk)
    requires Alike(After(p, d, kind), t, u) && InTurn(p) && MayCome(p, d, kind)
    ensures Alike(p, t, u) && MessageOf(t, d, kind) == MessageOf(u, d, kind) && VersionAt(p, t) == VersionAt(p, u)
    ensures p.acknowledged ==> t.negotiation == u.negotiation
  {
  }

  /** Only what was said matters. */
  lemma {:induction false} FlawlessAlike(talk: seq<Spoken>, t: Talk, u: Talk)
    requires Flawless(talk, t) && Alike(ProgressAfter(talk), t, u)
    ensures Flawless(talk, u) && InTurn(ProgressAfter(talk))
  {
    hide Alike, MayCome, MessageOf, After, InTurn, VersionAt, ParseEnvelope, ReadBody;
    if |talk| > 0 {
      var front, last := talk[..|talk| - 1], talk[|talk| - 1];
      FlawlessInTurn(front, t);
      AlikeBefore(ProgressAfter(front), last.direction, last.kind, t, u);
      FlawlessAlike(front, t, u);
      StaysInTurn(ProgressAfter(front), last.direction, last.kind);
    } else {
      SilenceIsInitial(t);
    }
  }

  lemma {:induction false} FlawlessInTurn(talk: seq<Spoken>, t: Talk)
    requires Flawless(talk, t)
    ensures InTurn(ProgressAfter(talk))
  {
    hide MayCome, Carries, MessageOf, After, InTurn;
    if |talk| > 0 {
      var front, last := talk[..|talk| - 1], talk[|talk| - 1];
      FlawlessInTurn(front, t);
      StaysInTurn(ProgressAfter(front), last.direction, last.kind);
    } else {
      SilenceIsInitial(t);
    }
  }

  /** A frame that is accepted says what it may. */
  lemma StepTook(r: Run, p: Progress, t: Talk, sent: Pair<nat>, d: Direction, e: seq<u8>)
      returns (kind: MessageType, u: Talk)
    requires InTurn(p) && p != ALL && Came(p, t) && r.state == StateOf(p, t, sent)
    requires Step(r, d, e).rejected == r.rejected
    ensures MayCome(p, d, kind) && Alike(p, t, u) && Came(After(p, d, kind), u)
    ensures Carries(e, p, u, MessageOf(u, d, kind), 1 + sent.Get(d))
  {
    hide MayCome, Carries, MessageOf, After, Came, Handle, Receive, InTurn, Alike, EnvelopeStateError;
    var (s, received) := Receive(r.state, d, e);
    assert received.Accepted?;
    var m := received.message;
    kind := KindOf(m);
    ReceivedExactly(p, t, sent, d, e, m);
    ReadyFor(p, t, Set(sent, d, sent.Get(d) + 1), d, m);
    u := Handled(p, t, Set(sent, d, sent.Get(d) + 1), d, m);
    CarriesAlike(e, p, t, u, m, 1 + sent.Get(d));
  }

  lemma CarriesAlike(e: seq<u8>, p: Progress, t: Talk, u: Talk, m: Message, id: nat)
    requires InTurn(p) && Alike(p, t, u) && Carries(e, p, t, m, id)
    ensures Carries(e, p, u, m, id)
  {
    hide ParseEnvelope, ReadBody;
  }

  lemma CompleteWhenAll(p: Progress, t: Talk, sent: Pair<nat>)
    requires InTurn(p)
    ensures StateOf(p, t, sent).complete <==> p == ALL
    ensures !StateOf(p, t, sent).terminal && (p == ALL ==> StateOf(p, t, sent).negotiation == Some(t.negotiation))
  {
  }

  /** Every frame of a run was accepted, and none came after the binding was complete. */
  ghost predicate Undisturbed(inputs: seq<(Direction, seq<u8>)>) {
    Execute(inputs).rejected == 0 && (|inputs| > 0 ==> !Execute(inputs[..|inputs| - 1]).state.complete)
  }

  lemma UndisturbedBefore(inputs: seq<(Direction, seq<u8>)>)
    requires |inputs| > 0 && Undisturbed(inputs)
    ensures var n := |inputs| - 1;
            Undisturbed(inputs[..n]) && Step(Execute(inputs[..n]), inputs[n].0, inputs[n].1).rejected == 0
  {
    var front := inputs[..|inputs| - 1];
    RejectedOnly(Execute(front), inputs[|inputs| - 1].0, inputs[|inputs| - 1].1);
    if |front| > 0 {
      var n := |front| - 1;
      hide Step;
      ExecuteInv(front[..n]);
      StepInv(Execute(front[..n]), front[n].0, front[n].1);
    }
  }

  lemma RejectedOnly(r: Run, d: Direction, e: seq<u8>)
    ensures Step(r, d, e).rejected >= r.rejected
  {
    hide Receive, Conclude;
  }

  /** The talk that a run heard. */
  ghost predicate Heard(inputs: seq<(Direction, seq<u8>)>, talk: seq<Spoken>, t: Talk) {
    Inputs(talk) == inputs && Flawless(talk, t) && Came(ProgressAfter(talk), t)
  }

  lemma {:induction false} UndisturbedHeard(inputs: seq<(Direction, seq<u8>)>) returns (talk: seq<Spoken>, t: Talk)
    requires Undisturbed(inputs)
    ensures Heard(inputs, talk, t)
    decreases |inputs|
  {
    hide Step, Flawless, Came, Execute, ProgressAfter, Inputs, StateOf, Carries, MayCome, Alike, After, InTurn, Sent,
      MessageOf, AnyTalk;
    if |inputs| == 0 {
      talk, t := [], AnyTalk();
      NothingHeard(t);
    } else {
      var n := |inputs| - 1;
      var (d, e) := inputs[n];
      UndisturbedBefore(inputs);
      var front, before := UndisturbedHeard(inputs[..n]);
      FlawlessReaches(front, before);
      CompleteWhenAll(ProgressAfter(front), before, Sent(front));
      var kind, u := StepTook(Execute(inputs[..n]), ProgressAfter(front), before, Sent(front), d, e);
      talk, t := front + [Spoken(d, kind, e)], u;
      HeardNext(inputs[..n], front, before, d, kind, e, u);
      assert inputs[..n] + [(d, e)] == inputs;
    }
  }

  ghost function AnyTalk(): Talk {
    var h, n := HelloData(Version(1, 0), Version(1, 0), [], [], 0, 0, 0), RawNegotiation(0, 0, [], 0, 0, 0);
    var raw := RawHello(0, 0, 0, 0, 0, [], [], 0, 0, 0);
    Talk(raw, raw, n, Pair(h, h), Negotiation(Version(1, 0), [], 0, 0, 0))
  }

  lemma NothingHeard(t: Talk)
    ensures Heard([], [], t)
  {
  }

  lemma HeardNext(inputs: seq<(Direction, seq<u8>)>, talk: seq<Spoken>, t: Talk, d: Direction, kind: MessageType,
                  e: seq<u8>, u: Talk)
    requires Heard(inputs, talk, t) && MayCome(ProgressAfter(talk), d, kind) && Alike(ProgressAfter(talk), t, u)
    requires Came(After(ProgressAfter(talk), d, kind), u)
    requires Carries(e, ProgressAfter(talk), u, MessageOf(u, d, kind), 1 + Sent(talk).Get(d))
    ensures Heard(inputs + [(d, e)], talk + [Spoken(d, kind, e)], u)
  {
    hide MayCome, Alike, Came, After, Carries, MessageOf;
    FlawlessAlike(talk, t, u);
    InputsSnoc(talk, Spoken(d, kind, e));
    assert (talk + [Spoken(d, kind, e)])[..|talk|] == talk;
  }

  /** Every frame of a run is accepted on the way to the binding if and only if the run is a flawless talk: frames in
      turn, in whichever order the sides speak and with ERRORs of the connection anywhere between them, numbered in each
      direction, and carrying what two acceptable HELLOs and the one negotiation they call for come to. */
  lemma AcceptedExactly(inputs: seq<(Direction, seq<u8>)>)
    ensures Undisturbed(inputs) <==> exists talk, t :: Heard(inputs, talk, t)
  {
    if Undisturbed(inputs) {
      var talk, t := UndisturbedHeard(inputs);
    }
    if talk, t :| Heard(inputs, talk, t) {
      HeardUndisturbed(inputs, talk, t);
    }
  }

  lemma HeardUndisturbed(inputs: seq<(Direction, seq<u8>)>, talk: seq<Spoken>, t: Talk)
    requires Heard(inputs, talk, t)
    ensures Undisturbed(inputs)
  {
    hide Step, StateOf, Carries, MessageOf, Execute;
    FlawlessReaches(talk, t);
    if |talk| > 0 {
      var front, last := talk[..|talk| - 1], talk[|talk| - 1];
      hide MayCome, Came, After;
      CameBefore(ProgressAfter(front), t, last.direction, last.kind);
      FlawlessReaches(front, t);
      KindSaid(t, last.direction, last.kind, ProgressAfter(front));
      CompleteWhenAll(ProgressAfter(front), t, Sent(front));
      assert inputs[..|inputs| - 1] == Inputs(front);
    }
  }

  /** The run completes the binding with its last frame. */
  ghost predicate Completes(inputs: seq<(Direction, seq<u8>)>) {
    |inputs| > 0 && Execute(inputs).state.complete && !Execute(inputs[..|inputs| - 1]).state.complete
  }

  /** A run completes the binding with its last frame if and only if it is a flawless talk in which all was said; what
      it agrees on is what the talk came to. */
  lemma CompletesExactly(inputs: seq<(Direction, seq<u8>)>)
    ensures Completes(inputs) <==> exists talk, t :: Heard(inputs, talk, t) && ProgressAfter(talk) == ALL
    ensures forall talk, t :: Heard(inputs, talk, t) && ProgressAfter(talk) == ALL ==>
              Execute(inputs).state.negotiation == Some(t.negotiation)
  {
    hide Step, Heard, Undisturbed, Shaped;
    if Completes(inputs) {
      CompletesUndisturbed(inputs);
      var talk, t := UndisturbedHeard(inputs);
      HeardAll(inputs, talk, t);
    }
    forall talk, t | Heard(inputs, talk, t) && ProgressAfter(talk) == ALL
      ensures Completes(inputs) && Execute(inputs).state.negotiation == Some(t.negotiation)
    {
      HeardAll(inputs, talk, t);
      AllCompletes(inputs, talk, t);
    }
  }

  lemma HeardAll(inputs: seq<(Direction, seq<u8>)>, talk: seq<Spoken>, t: Talk)
    requires Heard(inputs, talk, t)
    ensures Execute(inputs).state.complete <==> ProgressAfter(talk) == ALL
    ensures ProgressAfter(talk) == ALL ==> Execute(inputs).state.negotiation == Some(t.negotiation)
  {
    hide Flawless, Came, Execute, ProgressAfter, Inputs, StateOf;
    FlawlessReaches(talk, t);
    CompleteWhenAll(ProgressAfter(talk), t, Sent(talk));
  }

  lemma AllCompletes(inputs: seq<(Direction, seq<u8>)>, talk: seq<Spoken>, t: Talk)
    requires Heard(inputs, talk, t) && ProgressAfter(talk) == ALL && Execute(inputs).state.complete
    ensures Completes(inputs)
  {
    HeardUndisturbed(inputs, talk, t);
    hide Step;
    assert |inputs| == 0 ==> !Execute(inputs).state.complete;
  }

  lemma CompletesUndisturbed(inputs: seq<(Direction, seq<u8>)>)
    requires Completes(inputs)
    ensures Undisturbed(inputs)
  {
    hide Step;
    var n := |inputs| - 1;
    ExecuteInv(inputs[..n]);
    StepInv(Execute(inputs[..n]), inputs[n].0, inputs[n].1);
  }

  // ----- Counting -----

  function One(said: bool): nat {
    if said then 1 else 0
  }

  function Said(p: Progress): nat {
    One(p.hello.fromInitiator) + One(p.hello.fromResponder) + One(p.negotiated) + One(p.acknowledged)
    + One(p.finished.fromInitiator) + One(p.finished.fromResponder)
  }

  /** The messages of a talk other than ERRORs. */
  function Messages(talk: seq<Spoken>): nat {
    if |talk| == 0 then 0 else Messages(talk[..|talk| - 1]) + One(!talk[|talk| - 1].kind.Error?)
  }

  lemma SaysOne(p: Progress, d: Direction, kind: MessageType)
    requires MayCome(p, d, kind)
    ensures Said(After(p, d, kind)) == Said(p) + One(!kind.Error?)
  {
  }

  /** In a flawless talk all is said with exactly the sixth message that is not an ERROR. */
  lemma {:induction false} AllIsSix(talk: seq<Spoken>, t: Talk)
    requires Flawless(talk, t)
    ensures Said(ProgressAfter(talk)) == Messages(talk) && (ProgressAfter(talk) == ALL <==> Messages(talk) == 6)
  {
    hide Carries, MessageOf, MayCome, After;
    if |talk| > 0 {
      var front, last := talk[..|talk| - 1], talk[|talk| - 1];
      AllIsSix(front, t);
      SaysOne(ProgressAfter(front), last.direction, last.kind);
    }
  }
}
