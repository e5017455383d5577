/** Which orders of the calls asked of two ends make them pair, and when they can pair at all. */
module PairingPossible {
  import opened Common
  import opened PairingWire
  import opened PairingMessages
  import opened PairingAttempt
  import opened PairingAgreement
  import opened PairingRuns
  import opened PairingStages

  // ----- What is asked of an end -----

  /** The call that the state of an attempt asks for: to start, to report what was written, to decide. */
  predicate Asked(a: Attempt, c: Config, call: Call) {
    match call
    case Start(_) => a.phase == PairingTls
    case WroteAck(handle, _) => handle == c.handle && a.phase == Selecting && a.choice.ackPending
    case Decide(handle, decision, _) =>
      handle == c.handle && decision == Some(Confirm) && a.phase == AwaitingDecisions && a.choice.decision.None?
    case WroteDecision(handle, _) =>
      handle == c.handle && a.phase == AwaitingDecisions && a.choice.decision.Some? && !a.choice.decisionWritten
    case _ => false
  }

  function TimeOf(event: Event): u64 {
    if event.At? then CallTime(event.call) else event.now
  }

  /** The event is a call that is asked for, or the delivery of the next frame to an end that has started; it comes
      before the deadline then in force, and nothing else stands in its way. */
  predicate AsAsked(s: Connection, ends: Ends, event: Event) {
    var c, e := ConfigOf(ends, event.role), EndOf(s, event.role);
    && event.answers == GRANTED && !Terminal(e.attempt.phase) && c.admittedAt <= TimeOf(event) < Deadline(e.attempt)
    && (if event.At? then Asked(e.attempt, c, event.call)
        else e.attempt.phase != PairingTls && e.taken < |EndOf(s, Opposite(event.role)).sent|)
  }

  /** A frame is delivered to a responder that has not reported its acknowledgement as written. */
  predicate Premature(s: Connection, event: Event) {
    event.Deliver? && EndOf(s, event.role).attempt.choice.ackPending
  }

  /** Every event of a run is as asked. */
  predicate Obliging(s: Connection, ends: Ends, crypto: Crypto, events: seq<Event>)
    decreases |events|
  {
    |events| == 0 || (AsAsked(s, ends, events[0])
                      && Obliging(Happen(s, ends, crypto, events[0]), ends, crypto, events[1..]))
  }

  predicate HasPremature(s: Connection, ends: Ends, crypto: Crypto, events: seq<Event>)
    decreases |events|
  {
    |events| > 0 && (Premature(s, events[0])
                     || HasPremature(Happen(s, ends, crypto, events[0]), ends, crypto, events[1..]))
  }

  predicate BothPaired(s: Connection) {
    s.initiator.attempt.phase == PairedLocal && s.responder.attempt.phase == PairedLocal
  }

  // ----- One end -----

  /** Where an event takes an end: a call to the next step, a frame by what it is. */
  function NextMark(m: Mark, role: Role, deliver: bool): Mark {
    if !deliver || m.step == 1 then m.(step := m.step + 1)
    else if m.step == 2 then m.(step := if role == Initiator then 4 else 3)
    else m.(confirmed := true)
  }

  /** How many events an end has behind it. */
  function Done(m: Mark, role: Role): nat {
    (if role == Initiator && m.step >= 4 then m.step - 1 else m.step) + One(m.confirmed)
  }

  ghost predicate EndAt(e: End, c: Config, peer: Config, crypto: Crypto, deal: Deal, m: Mark)
    requires Dealt(c, peer, crypto, deal)
  {
    MarkOk(m, c.role) && Reached(e, c, StageOf(c, peer, crypto, deal, m))
  }

  /** The phase and the choice of an end tell its mark. */
  lemma MarkShows(e: End, c: Config, peer: Config, crypto: Crypto, deal: Deal, m: Mark)
    requires Dealt(c, peer, crypto, deal) && EndAt(e, c, peer, crypto, deal, m)
    ensures e.attempt.phase == PhaseAt(m) && e.taken == TakenBy(m)
    ensures m != PAIRED ==> e.attempt.choice == ChoiceAt(m)
    ensures e.sent == Script(c, peer, crypto, deal)[..SentBy(c.role, m)]
  {
    hide Script, Dealt;
  }

  lemma CallLeads(a: Attempt, c: Config, peer: Config, crypto: Crypto, deal: Deal, m: Mark, call: Call)
    requires Dealt(c, peer, crypto, deal) && MarkOk(m, c.role) && IsAt(a, c, StageOf(c, peer, crypto, deal, m))
    requires !Terminal(a.phase) && Asked(a, c, call) && CallTime(call) < Deadline(a)
    requires a.phase == PhaseAt(m) && a.choice == ChoiceAt(m)
    ensures Leads(Perform(c, a, crypto, call, GRANTED), c, StageOf(c, peer, crypto, deal, m),
                  StageOf(c, peer, crypto, deal, NextMark(m, c.role, false)), CallTime(call))
    ensures TakenBy(NextMark(m, c.role, false)) == TakenBy(m)
  {
    hide Perform, Dealt, StageOf, IsAt, Leads;
    match call
    case Start(now) => StartLeads(a, c, peer, crypto, deal, now);
    case WroteAck(_, now) => AckLeads(a, c, peer, crypto, deal, now);
    case Decide(_, _, now) => DecideLeads(a, c, peer, crypto, deal, m.confirmed, now);
    case WroteDecision(_, now) => WriteLeads(a, c, peer, crypto, deal, m.confirmed, now);
  }

  lemma CallCounts(a: Attempt, c: Config, m: Mark, call: Call)
    requires MarkOk(m, c.role) && Asked(a, c, call) && a.phase == PhaseAt(m) && a.choice == ChoiceAt(m)
    ensures var next := NextMark(m, c.role, false); MarkOk(next, c.role) && Done(next, c.role) == Done(m, c.role) + 1
  {
  }

  /** A call that is asked for takes an end one step on, and leaves it time. */
  lemma CallMoves(e: End, c: Config, peer: Config, crypto: Crypto, deal: Deal, m: Mark, call: Call)
    requires Dealt(c, peer, crypto, deal) && EndAt(e, c, peer, crypto, deal, m)
    requires !Terminal(e.attempt.phase) && Asked(e.attempt, c, call) && CallTime(call) < Deadline(e.attempt)
    ensures var f, next := Called(c, e, crypto, call, GRANTED), NextMark(m, c.role, false);
            && EndAt(f, c, peer, crypto, deal, next) && Done(next, c.role) == Done(m, c.role) + 1
            && Ahead(f.attempt, CallTime(call))
  {
    hide Perform, Called, Dealt, Script, IsAt, KnownAt, ChoiceAt, Ahead, Asked, Leads, NextMark, Done;
    MarkShows(e, c, peer, crypto, deal, m);
    var next := NextMark(m, c.role, false);
    CallCounts(e.attempt, c, m, call);
    CallLeads(e.attempt, c, peer, crypto, deal, m, call);
    Lands(e, c, crypto, call, StageOf(c, peer, crypto, deal, m), StageOf(c, peer, crypto, deal, next), CallTime(call));
    SameTaken(Called(c, e, crypto, call, GRANTED), TakenBy(next));
  }

  lemma SameTaken(e: End, taken: nat)
    requires e.taken == taken
    ensures e.(taken := taken) == e
  {
  }

  /** What is taken next, and where it leads. */
  lemma FrameLeads(a: Attempt, c: Config, peer: Config, crypto: Crypto, deal: Deal, m: Mark, now: u64)
    requires Dealt(c, peer, crypto, deal) && Dealt(peer, c, crypto, deal) && MarkOk(m, c.role)
    requires IsAt(a, c, StageOf(c, peer, crypto, deal, m)) && now < Deadline(a)
    requires m.step in {1, 2, 4, 5, 6} && !m.confirmed
    ensures TakenBy(m) < 3 && TakenBy(NextMark(m, c.role, true)) == TakenBy(m) + 1
    ensures Leads(Perform(c, a, crypto, Receive(Script(peer, c, crypto, deal)[TakenBy(m)], now), GRANTED), c,
                  StageOf(c, peer, crypto, deal, m), StageOf(c, peer, crypto, deal, NextMark(m, c.role, true)), now)
  {
    hide Perform, Dealt, StageOf, IsAt, Leads, Script;
    if m.step == 1 {
      HelloLeads(a, c, peer, crypto, deal, now);
    } else if m.step == 2 {
      SelectionLeads(a, c, peer, crypto, deal, now);
    } else {
      ConfirmLeads(a, c, peer, crypto, deal, m.step, now);
    }
  }

  lemma FrameCounts(m: Mark, role: Role)
    requires MarkOk(m, role) && m.step in {1, 2, 4, 5, 6} && !m.confirmed
    ensures var next := NextMark(m, role, true); MarkOk(next, role) && Done(next, role) == Done(m, role) + 1
  {
  }

  /** When a frame is there to be taken, and what it is. */
  lemma FrameWaits(e: End, other: End, c: Config, peer: Config, crypto: Crypto, deal: Deal, m: Mark, n: Mark)
    requires Dealt(c, peer, crypto, deal) && Dealt(peer, c, crypto, deal)
    requires EndAt(e, c, peer, crypto, deal, m) && EndAt(other, peer, c, crypto, deal, n)
    requires e.attempt.phase != PairingTls && e.taken < |other.sent|
    ensures e.taken == TakenBy(m) && m.step > 0 && !m.confirmed && TakenBy(m) < 3
    ensures other.sent[e.taken] == Script(peer, c, crypto, deal)[TakenBy(m)]
    ensures m.step == 3 <==> e.attempt.choice.ackPending
  {
    hide Dealt, Script, KnownAt, Reached;
    MarkShows(e, c, peer, crypto, deal, m);
    MarkShows(other, peer, c, crypto, deal, n);
  }

  /** So does a frame, unless the responder's acknowledgement is not reported yet. */
  lemma FrameMoves(e: End, other: End, c: Config, peer: Config, crypto: Crypto, deal: Deal, m: Mark, n: Mark, now: u64)
    requires Dealt(c, peer, crypto, deal) && Dealt(peer, c, crypto, deal)
    requires EndAt(e, c, peer, crypto, deal, m) && EndAt(other, peer, c, crypto, deal, n)
    requires !Terminal(e.attempt.phase) && e.attempt.phase != PairingTls && now < Deadline(e.attempt)
    requires e.taken < |other.sent| && !e.attempt.choice.ackPending
    ensures var f, next := Called(c, e, crypto, Receive(other.sent[e.taken], now), GRANTED), NextMark(m, c.role, true);
            && EndAt(f.(taken := e.taken + 1), c, peer, crypto, deal, next)
            && Done(next, c.role) == Done(m, c.role) + 1 && Ahead(f.attempt, now)
  {
    FrameWaits(e, other, c, peer, crypto, deal, m, n);
    hide Perform, Called, Dealt, Script, IsAt, KnownAt, ChoiceAt, Ahead, Leads, NextMark, Done, TakenBy;
    var call, next := Receive(other.sent[e.taken], now), NextMark(m, c.role, true);
    FrameCounts(m, c.role);
    FrameLeads(e.attempt, c, peer, crypto, deal, m, now);
    Lands(e, c, crypto, call, StageOf(c, peer, crypto, deal, m), StageOf(c, peer, crypto, deal, next), now);
  }

  // ----- Both ends -----

  datatype Marks = Marks(initiator: Mark, responder: Mark) {
    function Get(role: Role): Mark {
      if role == Initiator then initiator else responder
    }
    function With(role: Role, m: Mark): Marks {
      if role == Initiator then this.(initiator := m) else this.(responder := m)
    }
  }

  const BEGIN := Marks(Mark(0, false), Mark(0, false))

  function AllDone(at: Marks): nat {
    Done(at.initiator, Initiator) + Done(at.responder, Responder)
  }

  ghost predicate RoleAt(s: Connection, ends: Ends, crypto: Crypto, deal: Deal, role: Role, m: Mark)
    requires Setting(ends, crypto, deal)
  {
    SettingDealt(ends, crypto, deal, role);
    EndAt(EndOf(s, role), ConfigOf(ends, role), ConfigOf(ends, Opposite(role)), crypto, deal, m)
  }

  ghost predicate BothAt(s: Connection, ends: Ends, crypto: Crypto, deal: Deal, at: Marks)
    requires Setting(ends, crypto, deal)
  {
    RoleAt(s, ends, crypto, deal, Initiator, at.initiator) && RoleAt(s, ends, crypto, deal, Responder, at.responder)
  }

  /** An event that is as asked and not premature takes its end one step on. */
  lemma EventMoves(s: Connection, ends: Ends, crypto: Crypto, deal: Deal, at: Marks, event: Event)
    requires Setting(ends, crypto, deal) && BothAt(s, ends, crypto, deal, at) && AsAsked(s, ends, event)
    requires !Premature(s, event)
    ensures var role, t := event.role, Happen(s, ends, crypto, event);
            var next := at.With(role, NextMark(at.Get(role), role, event.Deliver?));
            && BothAt(t, ends, crypto, deal, next) && AllDone(next) == AllDone(at) + 1
            && Ahead(EndOf(t, role).attempt, TimeOf(event)) && EndOf(t, Opposite(role)) == EndOf(s, Opposite(role))
  {
    hide Setting, EndAt, Called, Asked, Ahead, NextMark, Done, Dealt, Deadline;
    var role := event.role;
    var c, peer, e, other := ConfigOf(ends, role), ConfigOf(ends, Opposite(role)), EndOf(s, role),
      EndOf(s, Opposite(role));
    SettingDealt(ends, crypto, deal, role);
    SettingDealt(ends, crypto, deal, Opposite(role));
    if event.At? {
      NotReceive(e.attempt, c, event.call);
      CallMoves(e, c, peer, crypto, deal, at.Get(role), event.call);
    } else {
      FrameMoves(e, other, c, peer, crypto, deal, at.Get(role), at.Get(Opposite(role)), event.now);
    }
  }

  lemma NotReceive(a: Attempt, c: Config, call: Call)
    requires Asked(a, c, call)
    ensures !call.Receive? && !call.Shutdown?
  {
  }

  /** Both have paired exactly when all thirteen events are behind them. */
  lemma PairedExactly(s: Connection, ends: Ends, crypto: Crypto, deal: Deal, at: Marks)
    requires Setting(ends, crypto, deal) && BothAt(s, ends, crypto, deal, at)
    ensures AllDone(at) <= 13 && (BothPaired(s) <==> AllDone(at) == 13)
  {
    hide Setting, Dealt, Script, KnownAt;
    forall role: Role ensures MarkOk(at.Get(role), role) && EndOf(s, role).attempt.phase == PhaseAt(at.Get(role)) {
      SettingDealt(ends, crypto, deal, role);
      MarkShows(EndOf(s, role), ConfigOf(ends, role), ConfigOf(ends, Opposite(role)), crypto, deal, at.Get(role));
    }
    assert EndOf(s, Initiator).attempt.phase == PhaseAt(at.Get(Initiator));
    assert EndOf(s, Responder).attempt.phase == PhaseAt(at.Get(Responder));
  }

  /** A premature delivery closes the responder, with a state violation. */
  lemma PrematureCloses(s: Connection, ends: Ends, crypto: Crypto, deal: Deal, at: Marks, event: Event)
    requires Setting(ends, crypto, deal) && BothAt(s, ends, crypto, deal, at) && AsAsked(s, ends, event)
    requires Premature(s, event)
    ensures event.role == Responder && EndOf(Happen(s, ends, crypto, event), Responder).attempt.phase == Closed
  {
    hide Setting, EndAt, Called, Dealt, Deadline;
    var role := event.role;
    var c, peer, e, other := ConfigOf(ends, role), ConfigOf(ends, Opposite(role)), EndOf(s, role),
      EndOf(s, Opposite(role));
    SettingDealt(ends, crypto, deal, role);
    SettingDealt(ends, crypto, deal, Opposite(role));
    FrameWaits(e, other, c, peer, crypto, deal, at.Get(role), at.Get(Opposite(role)));
    OnlyResponder(e, c, peer, crypto, deal, at.Get(role));
    EarlyCloses(e.attempt, c, peer, crypto, deal, event.now);
    CalledPhase(c, e, crypto, Receive(other.sent[e.taken], event.now));
  }

  lemma OnlyResponder(e: End, c: Config, peer: Config, crypto: Crypto, deal: Deal, m: Mark)
    requires Dealt(c, peer, crypto, deal) && EndAt(e, c, peer, crypto, deal, m) && m.step == 3
    ensures c.role == Responder && m == Mark(3, false) && IsAt(e.attempt, c, StageOf(c, peer, crypto, deal, m))
    ensures TakenBy(m) == 2
  {
    hide Dealt, Script, IsAt;
  }

  lemma CalledPhase(c: Config, e: End, crypto: Crypto, call: Call)
    ensures Called(c, e, crypto, call, GRANTED).attempt == Perform(c, e.attempt, crypto, call, GRANTED).attempt
  {
    hide Perform;
  }

  /** A closed attempt stays closed. */
  lemma {:induction false} ClosedStays(s: Connection, ends: Ends, crypto: Crypto, events: seq<Event>, role: Role)
    requires EndOf(s, role).attempt.phase == Closed
    ensures EndOf(Execute(s, ends, crypto, events), role).attempt.phase == Closed
    decreases |events|
  {
    if |events| > 0 {
      ClosedStep(s, ends, crypto, events[0], role);
      hide Happen;
      ClosedStays(Happen(s, ends, crypto, events[0]), ends, crypto, events[1..], role);
    }
  }

  lemma ClosedStep(s: Connection, ends: Ends, crypto: Crypto, event: Event, role: Role)
    requires EndOf(s, role).attempt.phase == Closed
    ensures EndOf(Happen(s, ends, crypto, event), role).attempt.phase == Closed
  {
    hide AfterCheck, Encoded;
  }

  lemma {:induction false} RunExactly(s: Connection, ends: Ends, crypto: Crypto, deal: Deal, at: Marks,
                                      events: seq<Event>)
    requires Setting(ends, crypto, deal) && BothAt(s, ends, crypto, deal, at) && Obliging(s, ends, crypto, events)
    ensures BothPaired(Execute(s, ends, crypto, events)) <==>
            AllDone(at) + |events| == 13 && !HasPremature(s, ends, crypto, events)
    decreases |events|
  {
    hide Setting, BothAt, Happen, AsAsked, AllDone, NextMark, BothPaired, Premature;
    if |events| == 0 {
      PairedExactly(s, ends, crypto, deal, at);
    } else {
      var event, t := events[0], Happen(s, ends, crypto, events[0]);
      if Premature(s, event) {
        PrematureCloses(s, ends, crypto, deal, at, event);
        ClosedStays(t, ends, crypto, events[1..], Responder);
        ClosedUnpaired(Execute(s, ends, crypto, events));
      } else {
        EventMoves(s, ends, crypto, deal, at, event);
        RunExactly(t, ends, crypto, deal, at.With(event.role, NextMark(at.Get(event.role), event.role, event.Deliver?)),
                   events[1..]);
      }
    }
  }

  lemma ClosedUnpaired(s: Connection)
    requires EndOf(s, Responder).attempt.phase == Closed
    ensures !BothPaired(s)
  {
  }

  lemma OpenedAt(ends: Ends, crypto: Crypto, deal: Deal)
    requires Setting(ends, crypto, deal)
    ensures BothAt(Opened(ends), ends, crypto, deal, BEGIN) && AllDone(BEGIN) == 0
  {
    hide Setting, Dealt, Script;
    SettingDealt(ends, crypto, deal, Initiator);
    SettingDealt(ends, crypto, deal, Responder);
  }

  /** Which orders pair. When two compatible ends are only asked what they ask for, in time and in whatever order, both
      pair if and only if all thirteen calls and deliveries were made and none was premature. */
  lemma OrdersThatPair(ends: Ends, crypto: Crypto, events: seq<Event>)
    requires Matched(ends) && Compatible(ends, crypto) && Obliging(Opened(ends), ends, crypto, events)
    ensures BothPaired(Execute(Opened(ends), ends, crypto, events)) <==>
            |events| == 13 && !HasPremature(Opened(ends), ends, crypto, events)
  {
    var deal := HasDeal(ends, crypto);
    OpenedAt(ends, crypto, deal);
    hide Opened, Execute, Obliging, HasPremature, BothPaired, BothAt;
    RunExactly(Opened(ends), ends, crypto, deal, BEGIN, events);
  }

  // ----- There is always a next event -----

  /** The event that an end with a mark is ready for. */
  function EventFor(c: Config, role: Role, m: Mark, now: u64): Event {
    if m.step == 0 then At(role, Start(now), GRANTED)
    else if m.step == 3 then At(role, WroteAck(c.handle, now), GRANTED)
    else if m.step == 4 then At(role, Decide(c.handle, Some(Confirm), now), GRANTED)
    else if m.step == 5 then At(role, WroteDecision(c.handle, now), GRANTED)
    else Deliver(role, now, GRANTED)
  }

  /** It is not the turn of the peer. */
  predicate Ready(at: Marks, role: Role) {
    var m := at.Get(role);
    m != PAIRED && (m.step in {1, 2, 6} ==> TakenBy(m) < SentBy(Opposite(role), at.Get(Opposite(role))))
  }

  lemma EventFits(s: Connection, ends: Ends, crypto: Crypto, deal: Deal, at: Marks, role: Role, now: u64)
    requires Setting(ends, crypto, deal) && BothAt(s, ends, crypto, deal, at) && Ready(at, role)
    requires ConfigOf(ends, role).admittedAt <= now < Deadline(EndOf(s, role).attempt)
    ensures var event := EventFor(ConfigOf(ends, role), role, at.Get(role), now);
            AsAsked(s, ends, event) && !Premature(s, event) && event.role == role && TimeOf(event) == now
            && event.Deliver? == (at.Get(role).step in {1, 2, 6})
  {
    hide Setting, Dealt, Script, KnownAt, EndAt, Deadline;
    var c, peer, e, other := ConfigOf(ends, role), ConfigOf(ends, Opposite(role)), EndOf(s, role),
      EndOf(s, Opposite(role));
    SettingDealt(ends, crypto, deal, role);
    SettingDealt(ends, crypto, deal, Opposite(role));
    Steps(e, c, peer, crypto, deal, at.Get(role));
    MarkShows(e, c, peer, crypto, deal, at.Get(role));
    MarkShows(other, peer, c, crypto, deal, at.Get(Opposite(role)));
    SentCount(peer.role, at.Get(Opposite(role)), Script(peer, c, crypto, deal));
  }

  lemma Steps(e: End, c: Config, peer: Config, crypto: Crypto, deal: Deal, m: Mark)
    requires Dealt(c, peer, crypto, deal) && EndAt(e, c, peer, crypto, deal, m)
    ensures MarkOk(m, c.role)
  {
  }

  lemma SentCount(role: Role, m: Mark, script: seq<seq<u8>>)
    requires |script| == 3
    ensures |script[..SentBy(role, m)]| == SentBy(role, m)
  {
  }

  /** A mark is on the way to another. */
  predicate Before(m: Mark, goal: Mark, role: Role) {
    MarkOk(m, role) && m.step <= goal.step && (m.confirmed ==> goal.confirmed && m.step == 6)
  }

  /** The two goals of interest: both have paired; the initiator has decided while the acknowledgement is pending. */
  predicate Goal(goal: Marks) {
    goal == Marks(PAIRED, PAIRED) || goal == Marks(Mark(5, false), Mark(3, false))
  }

  predicate OnTheWay(at: Marks, goal: Marks) {
    Before(at.initiator, goal.initiator, Initiator) && Before(at.responder, goal.responder, Responder)
  }

  /** The one of the two ends that goes on. */
  function Turn(at: Marks, goal: Marks): Role {
    if Ready(at, Initiator) && at.initiator != goal.initiator then Initiator else Responder
  }

  lemma TurnReady(at: Marks, goal: Marks)
    requires Goal(goal) && OnTheWay(at, goal) && at != goal
    ensures var role := Turn(at, goal);
            && Ready(at, role) && at.Get(role).step in {0, 1, 2, 3, 4, 5, 6}
            && (var m := at.Get(role);
                OnTheWay(at.With(role, NextMark(m, role, m.step in {1, 2, 6})), goal))
  {
  }

  datatype Times = Times(initiator: u64, responder: u64) {
    function Get(role: Role): u64 {
      if role == Initiator then initiator else responder
    }
    function With(role: Role, now: u64): Times {
      if role == Initiator then this.(initiator := now) else this.(responder := now)
    }
  }

  function Admitted(ends: Ends): Times {
    Times(ends.initiator.admittedAt, ends.responder.admittedAt)
  }

  /** The time of the last event of each end. */
  function LastTimes(times: Times, events: seq<Event>): Times
    decreases |events|
  {
    if |events| == 0 then times else LastTimes(times.With(events[0].role, TimeOf(events[0])), events[1..])
  }

  /** Each end has paired, or has time left. */
  ghost predicate TimeLeft(s: Connection, times: Times) {
    Ahead(s.initiator.attempt, times.initiator) && Ahead(s.responder.attempt, times.responder)
  }

  lemma OpenedTimeLeft(ends: Ends, crypto: Crypto)
    requires Compatible(ends, crypto)
    ensures TimeLeft(Opened(ends), Admitted(ends))
  {
    hide Derivable, OfferOk;
  }

  lemma {:induction false} RunReaches(s: Connection, ends: Ends, crypto: Crypto, deal: Deal, at: Marks, times: Times,
                                      events: seq<Event>)
    returns (next: Marks)
    requires Setting(ends, crypto, deal) && BothAt(s, ends, crypto, deal, at) && TimeLeft(s, times)
    requires Obliging(s, ends, crypto, events) && !HasPremature(s, ends, crypto, events)
    ensures var t := Execute(s, ends, crypto, events);
            BothAt(t, ends, crypto, deal, next) && TimeLeft(t, LastTimes(times, events))
              && AllDone(next) == AllDone(at) + |events|
    decreases |events|
  {
    hide Setting, BothAt, Happen, AsAsked, AllDone, NextMark, Premature, Ahead, TimeOf;
    if |events| == 0 {
      next := at;
    } else {
      var event, t := events[0], Happen(s, ends, crypto, events[0]);
      EventMoves(s, ends, crypto, deal, at, event);
      next := RunReaches(t, ends, crypto, deal,
                         at.With(event.role, NextMark(at.Get(event.role), event.role, event.Deliver?)),
                         times.With(event.role, TimeOf(event)), events[1..]);
    }
  }

  /** Something can be asked of an end at a time, and is not premature. */
  ghost predicate Askable(s: Connection, ends: Ends, role: Role, now: u64) {
    exists event: Event :: event.role == role && TimeOf(event) == now && AsAsked(s, ends, event) && !Premature(s, event)
  }

  /** An end has time left after `now`, and something can be asked of it at any time until its deadline. */
  ghost predicate CanGoOn(s: Connection, ends: Ends, role: Role, now: u64) {
    && now < Deadline(EndOf(s, role).attempt)
    && forall later: u64 :: ConfigOf(ends, role).admittedAt <= later < Deadline(EndOf(s, role).attempt) ==>
         Askable(s, ends, role, later)
  }

  lemma GoesOn(s: Connection, ends: Ends, crypto: Crypto, deal: Deal, at: Marks, role: Role, times: Times)
    requires Setting(ends, crypto, deal) && BothAt(s, ends, crypto, deal, at) && Ready(at, role)
    requires TimeLeft(s, times) && !Terminal(EndOf(s, role).attempt.phase)
    ensures CanGoOn(s, ends, role, times.Get(role))
  {
    hide Setting, BothAt, Ready, Deadline, EventFor, AsAsked, Premature, TimeOf;
    forall later: u64 | ConfigOf(ends, role).admittedAt <= later < Deadline(EndOf(s, role).attempt)
      ensures Askable(s, ends, role, later)
    {
      EventFits(s, ends, crypto, deal, at, role, later);
    }
  }

  lemma SomeReady(s: Connection, ends: Ends, crypto: Crypto, deal: Deal, at: Marks) returns (role: Role)
    requires Setting(ends, crypto, deal) && BothAt(s, ends, crypto, deal, at) && !BothPaired(s)
    ensures Ready(at, role) && !Terminal(EndOf(s, role).attempt.phase)
  {
    hide Setting, Dealt, Script, KnownAt, EndAt;
    SettingDealt(ends, crypto, deal, Initiator);
    SettingDealt(ends, crypto, deal, Responder);
    MarkShows(s.initiator, ends.initiator, ends.responder, crypto, deal, at.initiator);
    MarkShows(s.responder, ends.responder, ends.initiator, crypto, deal, at.responder);
    Steps(s.initiator, ends.initiator, ends.responder, crypto, deal, at.initiator);
    Steps(s.responder, ends.responder, ends.initiator, crypto, deal, at.responder);
    role := if Ready(at, Initiator) then Initiator else Responder;
  }

  /** No run of what is asked gets stuck. As long as no delivery was premature and the two have not both paired, one end
      has time left after its last event, and until its deadline there is something that can be asked of it which is not
      premature. */
  lemma NoDeadlock(ends: Ends, crypto: Crypto, events: seq<Event>)
    requires Matched(ends) && Compatible(ends, crypto)
    requires Obliging(Opened(ends), ends, crypto, events) && !HasPremature(Opened(ends), ends, crypto, events)
    ensures var s := Execute(Opened(ends), ends, crypto, events);
            BothPaired(s) || exists role: Role :: CanGoOn(s, ends, role, LastTimes(Admitted(ends), events).Get(role))
  {
    var deal := HasDeal(ends, crypto);
    OpenedAt(ends, crypto, deal);
    OpenedTimeLeft(ends, crypto);
    hide Opened, Execute, Obliging, HasPremature, BothPaired, BothAt, Ready, Derivable, LastTimes, CanGoOn, TimeLeft;
    var at := RunReaches(Opened(ends), ends, crypto, deal, BEGIN, Admitted(ends), events);
    var s := Execute(Opened(ends), ends, crypto, events);
    if !BothPaired(s) {
      var role := SomeReady(s, ends, crypto, deal, at);
      GoesOn(s, ends, crypto, deal, at, role, LastTimes(Admitted(ends), events));
    }
  }

  // ----- A run to a goal -----

  /** Every event is at the moment its end was admitted. */
  predicate AtAdmission(ends: Ends, events: seq<Event>) {
    forall i :: 0 <= i < |events| ==> TimeOf(events[i]) == ConfigOf(ends, events[i].role).admittedAt
  }

  lemma {:induction false} Drive(s: Connection, ends: Ends, crypto: Crypto, deal: Deal, at: Marks, goal: Marks)
    returns (events: seq<Event>)
    requires Setting(ends, crypto, deal) && BothAt(s, ends, crypto, deal, at) && TimeLeft(s, Admitted(ends))
    requires Goal(goal) && OnTheWay(at, goal)
    ensures Obliging(s, ends, crypto, events) && !HasPremature(s, ends, crypto, events) && AtAdmission(ends, events)
    ensures BothAt(Execute(s, ends, crypto, events), ends, crypto, deal, goal)
    ensures TimeLeft(Execute(s, ends, crypto, events), Admitted(ends))
    decreases 13 - AllDone(at)
  {
    hide Setting, BothAt, Happen, AsAsked, AllDone, NextMark, Premature, Ahead, TimeOf, OnTheWay, Goal, Turn, EventFor,
      Deadline, Ready;
    if at == goal {
      events := [];
    } else {
      TurnReady(at, goal);
      var role := Turn(at, goal);
      var m, now := at.Get(role), ConfigOf(ends, role).admittedAt;
      TurnTime(s, ends, crypto, deal, at, role);
      EventFits(s, ends, crypto, deal, at, role, now);
      var event := EventFor(ConfigOf(ends, role), role, m, now);
      EventMoves(s, ends, crypto, deal, at, event);
      var next, t := at.With(role, NextMark(m, role, event.Deliver?)), Happen(s, ends, crypto, event);
      PairedExactly(t, ends, crypto, deal, next);
      var rest := Drive(t, ends, crypto, deal, next, goal);
      events := [event] + rest;
      assert events[1..] == rest;
    }
  }

  lemma TurnTime(s: Connection, ends: Ends, crypto: Crypto, deal: Deal, at: Marks, role: Role)
    requires Setting(ends, crypto, deal) && BothAt(s, ends, crypto, deal, at) && TimeLeft(s, Admitted(ends))
    requires Ready(at, role)
    ensures ConfigOf(ends, role).admittedAt < Deadline(EndOf(s, role).attempt)
  {
    hide Setting, Dealt, Script, KnownAt, EndAt;
    SettingDealt(ends, crypto, deal, role);
    MarkShows(EndOf(s, role), ConfigOf(ends, role), ConfigOf(ends, Opposite(role)), crypto, deal, at.Get(role));
  }

  /** An order that does not pair. Two compatible ends are asked only what they ask for, but the initiator's decision is
      delivered before the responder reports its acknowledgement as written: the responder closes. */
  lemma ClosingOrder(ends: Ends, crypto: Crypto) returns (events: seq<Event>)
    requires Matched(ends) && Compatible(ends, crypto)
    ensures Obliging(Opened(ends), ends, crypto, events) && HasPremature(Opened(ends), ends, crypto, events)
    ensures EndOf(Execute(Opened(ends), ends, crypto, events), Responder).attempt.phase == Closed
  {
    var deal := HasDeal(ends, crypto);
    OpenedAt(ends, crypto, deal);
    OpenedTimeLeft(ends, crypto);
    var goal := Marks(Mark(5, false), Mark(3, false));
    hide Opened, Execute, Obliging, HasPremature, BothAt, Derivable, Happen, AsAsked, Premature, Compatible, IsDeal;
    var run := Drive(Opened(ends), ends, crypto, deal, BEGIN, goal);
    var s := Execute(Opened(ends), ends, crypto, run);
    var last := Deliver(Responder, ends.responder.admittedAt, GRANTED);
    EarlyFits(s, ends, crypto, deal, last);
    PrematureCloses(s, ends, crypto, deal, goal, last);
    Appended(Opened(ends), ends, crypto, run, last);
    events := run + [last];
  }

  lemma EarlyFits(s: Connection, ends: Ends, crypto: Crypto, deal: Deal, event: Event)
    requires Setting(ends, crypto, deal) && BothAt(s, ends, crypto, deal, Marks(Mark(5, false), Mark(3, false)))
    requires TimeLeft(s, Admitted(ends)) && event == Deliver(Responder, ends.responder.admittedAt, GRANTED)
    ensures AsAsked(s, ends, event) && Premature(s, event)
  {
    hide Setting, Dealt, Script, KnownAt, EndAt;
    SettingDealt(ends, crypto, deal, Initiator);
    SettingDealt(ends, crypto, deal, Responder);
    MarkShows(s.initiator, ends.initiator, ends.responder, crypto, deal, Mark(5, false));
    MarkShows(s.responder, ends.responder, ends.initiator, crypto, deal, Mark(3, false));
    SentCount(Initiator, Mark(5, false), Script(ends.initiator, ends.responder, crypto, deal));
  }

  lemma {:induction false} Appended(s: Connection, ends: Ends, crypto: Crypto, events: seq<Event>, last: Event)
    requires Obliging(s, ends, crypto, events)
    requires AsAsked(Execute(s, ends, crypto, events), ends, last) && Premature(Execute(s, ends, crypto, events), last)
    ensures Obliging(s, ends, crypto, events + [last]) && HasPremature(s, ends, crypto, events + [last])
    ensures Execute(s, ends, crypto, events + [last]) == Happen(Execute(s, ends, crypto, events), ends, crypto, last)
    decreases |events|
  {
    hide Happen, AsAsked, Premature;
    if |events| == 0 {
      assert events + [last] == [last];
      assert [last][1..] == [];
    } else {
      Appended(Happen(s, ends, crypto, events[0]), ends, crypto, events[1..], last);
      assert (events + [last])[1..] == events[1..] + [last];
    }
  }
}
