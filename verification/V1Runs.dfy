/** Whole runs of the v1 handshake machine. */
module V1Runs {
  import opened Common
  import opened V1Tlv
  import opened V1Frame
  import opened V1Transcript

  datatype LogEntry = LogEntry(direction: Direction, kind: MessageType, messageId: u64)

  datatype Run = Run(state: State, log: seq<LogEntry>, rejected: nat)

  /** The run after the frame that was received as `received`, in state `t`. */
  function Record(r: Run, d: Direction, t: State, received: Received): Run
    requires received.Refused? ==> received.error != NoError
    requires received.Accepted? ==> MayHandle(r.state, d, t, received)
  {
    var (u, error) := Conclude(t, d, received);
    if error != NoError || received.Refused? then Run(u, r.log, r.rejected + 1)
    else Run(u, r.log + [LogEntry(d, KindOf(received.message), received.messageId)], r.rejected)
  }

  ghost function Step(r: Run, d: Direction, encoded: seq<u8>): Run {
    if r.state.terminal then r.(rejected := r.rejected + 1)
    else
      var (t, received) := Receive(r.state, d, encoded);
      Record(r, d, t, received)
  }

  /** The parser after a whole run of frames, with the frames it accepted and how many it refused. */
  ghost function Execute(inputs: seq<(Direction, seq<u8>)>): Run {
    if |inputs| == 0 then Run(INITIAL, [], 0)
    else
      var last := inputs[|inputs| - 1];
      Step(Execute(inputs[..|inputs| - 1]), last.0, last.1)
  }

  /** The message ids accepted in one direction, in order. */
  function IdsOf(log: seq<LogEntry>, d: Direction): seq<u64> {
    if |log| == 0 then []
    else
      var front, last := IdsOf(log[..|log| - 1], d), log[|log| - 1];
      if last.direction == d then front + [last.messageId] else front
  }

  /** The accepted messages other than connection-scoped ERRORs. */
  function Handshake(log: seq<LogEntry>): seq<(Direction, MessageType)> {
    if |log| == 0 then []
    else
      var front, last := Handshake(log[..|log| - 1]), log[|log| - 1];
      if last.kind.Error? then front else front + [(last.direction, last.kind)]
  }

  predicate Consecutive(ids: seq<u64>) {
    forall k :: 0 <= k < |ids| ==> ids[k] == k + 1
  }

  // ----- The invariant of unfinished runs -----

  function When<T>(condition: bool, item: T): seq<T> {
    if condition then [item] else []
  }

  /** How far the handshake is, as flags. */
  datatype Progress = Progress(hello: Pair<bool>, negotiated: bool, acknowledged: bool, finished: Pair<bool>)

  function ProgressOf(s: State): Progress {
    Progress(Pair(s.hellos.fromInitiator.Some?, s.hellos.fromResponder.Some?), s.negotiation.Some?, s.acknowledged,
             s.finished)
  }

  function Both(spoken: Pair<bool>, first: Direction, kind: MessageType): seq<(Direction, MessageType)> {
    When(spoken.Get(first), (first, kind)) + When(spoken.Get(Opposite(first)), (Opposite(first), kind))
  }

  function Middle(p: Progress): seq<(Direction, MessageType)> {
    When(p.negotiated, (InitiatorToResponder, Negotiate)) + When(p.acknowledged, (ResponderToInitiator, NegotiateAck))
  }

  /** What the log must be, given the progress and which side spoke first in each symmetric exchange. */
  function Expected(p: Progress, helloFirst: Direction, finishFirst: Direction): seq<(Direction, MessageType)> {
    Both(p.hello, helloFirst, Hello) + (Middle(p) + Both(p.finished, finishFirst, TransportFinished))
  }

  predicate Ordered(p: Progress, helloFirst: Direction, finishFirst: Direction) {
    && (p.hello.Get(Opposite(helloFirst)) ==> p.hello.Get(helloFirst))
    && (p.finished.Get(Opposite(finishFirst)) ==> p.finished.Get(finishFirst))
    && (p.negotiated ==> p.hello.fromInitiator && p.hello.fromResponder)
    && (p.acknowledged ==> p.negotiated)
    && (p.finished.fromInitiator || p.finished.fromResponder ==> p.acknowledged)
  }

  predicate Follows(log: seq<LogEntry>, p: Progress, helloFirst: Direction, finishFirst: Direction) {
    Ordered(p, helloFirst, finishFirst) && Handshake(log) == Expected(p, helloFirst, finishFirst)
  }

  predicate IdsTaken(r: Run, d: Direction) {
    var ids := IdsOf(r.log, d);
    Consecutive(ids) && |ids| == if r.state.exhausted.Get(d) then U64_MAX else r.state.nextId.Get(d) - 1
  }

  ghost predicate Shaped(r: Run) {
    && r.rejected == 0
    && IdsTaken(r, InitiatorToResponder) && IdsTaken(r, ResponderToInitiator)
    && exists helloFirst, finishFirst :: Follows(r.log, ProgressOf(r.state), helloFirst, finishFirst)
  }

  ghost predicate Inv(r: Run) {
    Valid(r.state) && (!r.state.complete && !r.state.terminal ==> Shaped(r))
  }

  lemma IdsStep(log: seq<LogEntry>, a: LogEntry, d: Direction)
    ensures IdsOf(log + [a], d) == if a.direction == d then IdsOf(log, d) + [a.messageId] else IdsOf(log, d)
  {
    assert (log + [a])[..|log|] == log;
  }

  lemma HandshakeStep(log: seq<LogEntry>, a: LogEntry)
    ensures Handshake(log + [a]) == if a.kind.Error? then Handshake(log) else Handshake(log) + [(a.direction, a.kind)]
  {
    assert (log + [a])[..|log|] == log;
  }

  /** An accepted message id is the next one, and only it moves. */
  lemma IdsTakenStep(r: Run, s: State, a: LogEntry, d: Direction)
    requires IdsTaken(r, d) && !r.state.exhausted.Get(a.direction) && a.messageId == r.state.nextId.Get(a.direction)
    requires s.nextId == ConsumeId(r.state, a.direction).nextId
    requires s.exhausted == ConsumeId(r.state, a.direction).exhausted
    ensures IdsTaken(Run(s, r.log + [a], 0), d)
  {
    IdsStep(r.log, a, d);
  }

  /** The progress one accepted message makes. */
  predicate Advances(p: Progress, q: Progress, d: Direction, kind: MessageType) {
    match kind
    case Hello => !p.hello.Get(d) && !p.negotiated && q == p.(hello := Set(p.hello, d, true))
    case Negotiate =>
      d.InitiatorToResponder? && p.hello.fromInitiator && p.hello.fromResponder && !p.negotiated
        && q == p.(negotiated := true)
    case NegotiateAck => d.ResponderToInitiator? && p.negotiated && !p.acknowledged && q == p.(acknowledged := true)
    case TransportFinished => p.acknowledged && !p.finished.Get(d) && q == p.(finished := Set(p.finished, d, true))
    case Error => q == p
    case _ => false
  }

  lemma HandleAdvances(s: State, d: Direction, m: Message, streamId: u32)
    requires !s.complete && Proper(m) && EnvelopeStateError(s, d, KindOf(m), streamId) == NoError && Handle(s, d, m).Ok?
    ensures Advances(ProgressOf(s), ProgressOf(Handle(s, d, m).value), d, KindOf(m))
  {
  }

  /** In a symmetric exchange the side that speaks is appended, whoever counted as first. */
  lemma BothStep(spoken: Pair<bool>, first: Direction, d: Direction, kind: MessageType)
    requires !spoken.Get(d) && (spoken.Get(Opposite(first)) ==> spoken.Get(first))
    ensures var first' := if spoken.Get(Opposite(d)) then first else d;
            && (Set(spoken, d, true).Get(Opposite(first')) ==> Set(spoken, d, true).Get(first'))
            && Both(Set(spoken, d, true), first', kind) == Both(spoken, first, kind) + [(d, kind)]
  {
  }

  /** Each accepted handshake message extends the expected log by exactly itself. */
  lemma ExpectedStep(p: Progress, q: Progress, d: Direction, kind: MessageType, helloFirst: Direction,
                     finishFirst: Direction)
    returns (helloFirst': Direction, finishFirst': Direction)
    requires Advances(p, q, d, kind) && Ordered(p, helloFirst, finishFirst)
    ensures Ordered(q, helloFirst', finishFirst')
    ensures Expected(q, helloFirst', finishFirst') ==
            Expected(p, helloFirst, finishFirst) + When(!kind.Error?, (d, kind))
  {
    helloFirst', finishFirst' := helloFirst, finishFirst;
    var hellos, finishes := Both(p.hello, helloFirst, Hello), Both(p.finished, finishFirst, TransportFinished);
    if kind.Hello? {
      BothStep(p.hello, helloFirst, d, kind);
      helloFirst' := if p.hello.Get(Opposite(d)) then helloFirst else d;
      assert Middle(p) + finishes == [];
    } else if kind.TransportFinished? {
      BothStep(p.finished, finishFirst, d, kind);
      finishFirst' := if p.finished.Get(Opposite(d)) then finishFirst else d;
      assert hellos + (Middle(p) + (finishes + [(d, kind)])) == hellos + (Middle(p) + finishes) + [(d, kind)];
    } else if !kind.Error? {
      assert finishes == [];
      assert Middle(q) == Middle(p) + [(d, kind)];
      assert hellos + ((Middle(p) + [(d, kind)]) + finishes) == hellos + (Middle(p) + finishes) + [(d, kind)];
    } else {
      assert Expected(p, helloFirst, finishFirst) + [] == Expected(p, helloFirst, finishFirst);
    }
  }

  // ----- Every run -----

  lemma HandleKeepsIds(s: State, d: Direction, m: Message)
    requires m.NegotiateMessage? ==> s.hellos.fromInitiator.Some? && s.hellos.fromResponder.Some?
    requires m.AckMessage? ==> s.negotiation.Some?
    requires Handle(s, d, m).Ok?
    ensures var t := Handle(s, d, m).value;
            t.nextId == s.nextId && t.exhausted == s.exhausted && t.terminal == s.terminal
  {
  }

  lemma ShapedStep(r: Run, u: State, a: LogEntry)
    requires Shaped(r) && Advances(ProgressOf(r.state), ProgressOf(u), a.direction, a.kind)
    requires !r.state.exhausted.Get(a.direction) && a.messageId == r.state.nextId.Get(a.direction)
    requires u.nextId == ConsumeId(r.state, a.direction).nextId
    requires u.exhausted == ConsumeId(r.state, a.direction).exhausted
    ensures Shaped(Run(u, r.log + [a], 0))
  {
    IdsTakenStep(r, u, a, InitiatorToResponder);
    IdsTakenStep(r, u, a, ResponderToInitiator);
    var helloFirst, finishFirst :| Follows(r.log, ProgressOf(r.state), helloFirst, finishFirst);
    var h, f := ExpectedStep(ProgressOf(r.state), ProgressOf(u), a.direction, a.kind, helloFirst, finishFirst);
    HandshakeStep(r.log, a);
    assert Handshake(r.log) + [] == Handshake(r.log);
    assert Follows(r.log + [a], ProgressOf(u), h, f);
  }

  ghost predicate ReceivedFrom(s: State, d: Direction, t: State, received: Received) {
    && (t == s || t == ConsumeId(s, d))
    && (received.Refused? ==> received.error != NoError)
    && (received.Accepted? ==> MayHandle(s, d, t, received))
  }

  lemma MayBeHandled(s: State, d: Direction, t: State, received: Received)
    requires ReceivedFrom(s, d, t, received)
    ensures received.Accepted? && received.message.NegotiateMessage? ==>
              t.hellos.fromInitiator.Some? && t.hellos.fromResponder.Some?
    ensures received.Accepted? && received.message.AckMessage? ==> t.negotiation.Some?
  {
  }

  lemma ConsumeKeepsValid(s: State, d: Direction)
    requires Valid(s)
    ensures Valid(ConsumeId(s, d)) && forall b :: Valid(s.(terminal := b)) && Valid(ConsumeId(s, d).(terminal := b))
  {
  }

  lemma RecordValid(r: Run, d: Direction, t: State, received: Received)
    requires Valid(r.state) && ReceivedFrom(r.state, d, t, received)
    ensures Valid(Record(r, d, t, received).state)
  {
    hide Valid, Handle, EnvelopeStateError;
    ConsumeKeepsValid(r.state, d);
    MayBeHandled(r.state, d, t, received);
    if received.Accepted? && Handle(t, d, received.message).Ok? {
      HandleKeepsValid(t, d, received.message, received.streamId);
    }
  }

  /** Before the binding frames are complete, every refusal ends the transcript. */
  lemma FailEnds(t: State, error: ErrorCode, streamId: u32)
    requires error != NoError && !t.complete
    ensures var (u, e) := Fail(t, error, streamId); u.terminal && !u.complete && e != NoError
  {
  }

  lemma AcceptedShape(r: Run, d: Direction, t: State, received: Received)
    requires Shaped(r) && !r.state.complete && ReceivedFrom(r.state, d, t, received)
    requires received.Accepted? && Handle(t, d, received.message).Ok?
    ensures Shaped(Run(Handle(t, d, received.message).value,
                       r.log + [LogEntry(d, KindOf(received.message), received.messageId)], 0))
  {
    hide Handle, Shaped, Advances, EnvelopeStateError;
    HandleAdvances(t, d, received.message, received.streamId);
    HandleKeepsIds(t, d, received.message);
    ShapedStep(r, Handle(t, d, received.message).value, LogEntry(d, KindOf(received.message), received.messageId));
  }

  /** Before the binding frames are complete, a frame either extends the handshake or ends the transcript. */
  lemma RecordShape(r: Run, d: Direction, t: State, received: Received)
    requires Shaped(r) && !r.state.complete && ReceivedFrom(r.state, d, t, received)
    ensures var q := Record(r, d, t, received); Shaped(q) || (q.state.terminal && !q.state.complete)
  {
    assert r.rejected == 0;
    hide Handle, Fail, Shaped, EnvelopeStateError;
    MayBeHandled(r.state, d, t, received);
    if received.Refused? {
      FailEnds(t, received.error, received.streamId);
    } else if Handle(t, d, received.message).Err? {
      FailEnds(t, Handle(t, d, received.message).error, received.streamId);
    } else {
      AcceptedShape(r, d, t, received);
    }
  }

  /** Completion is permanent, and what was negotiated stays. */
  lemma RecordComplete(r: Run, d: Direction, t: State, received: Received)
    requires Valid(r.state) && r.state.complete && ReceivedFrom(r.state, d, t, received)
    ensures Persists(r, Record(r, d, t, received))
  {
  }

  predicate Persists(r: Run, q: Run) {
    q.state.complete && q.state.negotiation == r.state.negotiation && q.state.hellos == r.state.hellos
  }

  lemma StepInv(r: Run, d: Direction, encoded: seq<u8>)
    requires Inv(r)
    ensures Inv(Step(r, d, encoded))
    ensures !r.state.complete && Step(r, d, encoded).state.complete ==> Shaped(Step(r, d, encoded))
    ensures r.state.complete ==> Persists(r, Step(r, d, encoded))
  {
    hide Receive, Record;
    if !r.state.terminal {
      var (t, received) := Receive(r.state, d, encoded);
      RecordValid(r, d, t, received);
      if r.state.complete {
        RecordComplete(r, d, t, received);
      } else {
        RecordShape(r, d, t, received);
      }
    }
  }

  lemma {:induction false} ExecuteInv(inputs: seq<(Direction, seq<u8>)>)
    ensures Inv(Execute(inputs))
  {
    hide Step;
    if |inputs| > 0 {
      ExecuteInv(inputs[..|inputs| - 1]);
      var last := inputs[|inputs| - 1];
      StepInv(Execute(inputs[..|inputs| - 1]), last.0, last.1);
    } else {
      assert Follows([], ProgressOf(INITIAL), InitiatorToResponder, InitiatorToResponder);
    }
  }

  predicate FullHandshake(log: seq<LogEntry>, helloFirst: Direction, finishFirst: Direction) {
    Handshake(log) == [(helloFirst, Hello), (Opposite(helloFirst), Hello), (InitiatorToResponder, Negotiate),
                       (ResponderToInitiator, NegotiateAck), (finishFirst, TransportFinished),
                       (Opposite(finishFirst), TransportFinished)]
  }

  /** A run of `frames` frames that completed the binding with its last one, judged as a whole. */
  ghost predicate CompletedHandshake(r: Run, frames: nat) {
    && r.state.complete
    && r.rejected == 0 && |r.log| == frames
    && Consecutive(IdsOf(r.log, InitiatorToResponder)) && Consecutive(IdsOf(r.log, ResponderToInitiator))
    && (exists helloFirst: Direction, finishFirst: Direction :: FullHandshake(r.log, helloFirst, finishFirst))
    && r.state.negotiation.Some? && r.state.hellos.fromInitiator.Some? && r.state.hellos.fromResponder.Some?
    && Agreed(r.state.negotiation.value, r.state.hellos.fromInitiator.value, r.state.hellos.fromResponder.value)
  }

  lemma {:induction false} AcceptedOrRejected(inputs: seq<(Direction, seq<u8>)>)
    ensures |Execute(inputs).log| + Execute(inputs).rejected == |inputs|
  {
    hide Receive, Conclude;
    if |inputs| > 0 {
      AcceptedOrRejected(inputs[..|inputs| - 1]);
    }
  }

  lemma ExpectedFull(p: Progress, helloFirst: Direction, finishFirst: Direction)
    requires p == Progress(Pair(true, true), true, true, Pair(true, true))
    ensures Expected(p, helloFirst, finishFirst) ==
            [(helloFirst, Hello), (Opposite(helloFirst), Hello), (InitiatorToResponder, Negotiate),
             (ResponderToInitiator, NegotiateAck), (finishFirst, TransportFinished),
               (Opposite(finishFirst), TransportFinished)]
  {
    assert Both(p.finished, finishFirst, TransportFinished) ==
           [(finishFirst, TransportFinished), (Opposite(finishFirst), TransportFinished)];
    assert Both(p.hello, helloFirst, Hello) == [(helloFirst, Hello), (Opposite(helloFirst), Hello)];
  }

  lemma ShapedCompletes(r: Run)
    requires Inv(r) && Shaped(r) && r.state.complete
    ensures CompletedHandshake(r, |r.log|)
  {
    var helloFirst, finishFirst :| Follows(r.log, ProgressOf(r.state), helloFirst, finishFirst);
    ExpectedFull(ProgressOf(r.state), helloFirst, finishFirst);
    assert FullHandshake(r.log, helloFirst, finishFirst);
  }

  /** Every run that reaches `binding_frames_complete` did so by a prefix that is a complete, flawless handshake;
      what was agreed there is what holds at the end of the run. */
  lemma {:induction false} WholeTranscript(inputs: seq<(Direction, seq<u8>)>) returns (k: nat)
    requires Execute(inputs).state.complete
    ensures 0 < k <= |inputs|
    ensures !Execute(inputs[..k - 1]).state.complete && CompletedHandshake(Execute(inputs[..k]), k)
    ensures Persists(Execute(inputs[..k]), Execute(inputs))
  {
    hide Step;
    var n := |inputs| - 1;
    var last := inputs[n];
    ExecuteInv(inputs[..n]);
    StepInv(Execute(inputs[..n]), last.0, last.1);
    if Execute(inputs[..n]).state.complete {
      k := WholeTranscript(inputs[..n]);
      assert inputs[..n][..k] == inputs[..k] && inputs[..n][..k - 1] == inputs[..k - 1];
    } else {
      k := |inputs|;
      assert inputs[..k] == inputs;
      AcceptedOrRejected(inputs);
      ShapedCompletes(Execute(inputs));
    }
  }
}
