/** Pairing attempts and the replay cache they share. */
module PairingReplay {
  import opened Common
  import opened PairingWire
  import opened PairingMessages
  import opened PairingAttempt
  import Replay

  // ----- What a call does to the time, the phase and the binding -----

  /** The time is the attempt's or the call's; a context is bound while selecting, and only on the way to the prompt. */
  predicate Turns(a: Attempt, now: u64, replay: Option<PairingError>, r: Step) {
    var b, bound := r.attempt, r.update.binding.Some?;
    && (b.lastNow == a.lastNow || b.lastNow == now)
    && (bound ==> a.phase == Selecting && (b.phase == AwaitingDecisions || b.phase == Closed))
    && (bound && replay.Some? ==> b.phase == Closed && r.update.error == replay)
    && (!bound && b.phase == AwaitingDecisions ==> a.phase == AwaitingDecisions)
    && (a.phase == AwaitingDecisions ==> b.phase == AwaitingDecisions || Terminal(b.phase))
  }

  lemma StartedTurns(c: Config, a: Attempt, now: u64, replay: Option<PairingError>)
    ensures Turns(a, now, replay, Started(c, a, now))
  {
    hide OfferOk, Encoded;
  }

  lemma CompleteTurns(c: Config, a: Attempt, crypto: Crypto, now: u64, answers: Answers)
    requires a.phase == Selecting
    ensures Turns(a, now, answers.replay, CompleteSelection(c, a, crypto, now, answers))
  {
  }

  lemma SendTurns(a: Attempt, kind: u16, s: Selection, now: u64, replay: Option<PairingError>)
    requires a.phase == Selecting
    ensures Turns(a, now, replay, SendSelection(a, kind, s)) && SendSelection(a, kind, s).update.binding.None?
    ensures SendSelection(a, kind, s).attempt.phase in {Selecting, Closed}
  {
    hide Encoded;
  }

  lemma HelloTurns(c: Config, a: Attempt, crypto: Crypto, f: Frame, now: u64, replay: Option<PairingError>)
    ensures Turns(a, now, replay, ReceiveHello(c, a, crypto, f, now))
  {
    hide DecodeHello, SelectBetween, Encoded;
  }

  lemma SelectionTurns(c: Config, a: Attempt, crypto: Crypto, f: Frame, now: u64, answers: Answers)
    ensures Turns(a, now, answers.replay, ReceiveSelection(c, a, crypto, f, now, answers))
  {
    hide DecodeSelection, CompleteSelection, SendSelection;
    if a.phase == Selecting && a.known.selection.Some? {
      CompleteTurns(c, a, crypto, now, answers);
      SendTurns(a, SELECT_ACK, a.known.selection.value, now, answers.replay);
    }
  }

  lemma DecisionTurns(c: Config, a: Attempt, crypto: Crypto, f: Frame, now: u64, answers: Answers)
    ensures Turns(a, now, answers.replay, ReceiveDecision(c, a, crypto, f, now, answers))
    ensures Turns(a, now, answers.replay, ReceiveAbort(a, f))
  {
    hide DecodeDecision, VerifyConfirmation, DecodeAbort;
  }

  lemma ReceivedTurns(c: Config, a: Attempt, crypto: Crypto, bytes: seq<u8>, now: u64, answers: Answers)
    ensures Turns(a, now, answers.replay, Received(c, a, crypto, bytes, now, answers))
  {
    hide ParseFrame, ReceiveHello, ReceiveSelection, ReceiveDecision, ReceiveAbort;
    var t := a.traffic;
    if ParseFrame(bytes).Ok? && t.nextIn < U32_MAX {
      var b := a.(traffic := t.(frames := t.frames + 1, bytes := t.bytes + |bytes|));
      var d, f := b.(traffic := b.traffic.(nextIn := t.nextIn + 1)), ParseFrame(bytes).value;
      HelloTurns(c, d, crypto, f, now, answers.replay);
      SelectionTurns(c, d, crypto, f, now, answers);
      DecisionTurns(c, d, crypto, f, now, answers);
    }
  }

  lemma OthersTurn(c: Config, a: Attempt, crypto: Crypto, call: Call, answers: Answers)
    requires !call.Shutdown? && !call.Receive?
    ensures Turns(a, call.now, answers.replay, AfterCheck(c, a, crypto, call, answers))
  {
    hide Started, CompleteSelection, Encoded, BuildConfirmation;
    StartedTurns(c, a, call.now, answers.replay);
    if a.phase == Selecting {
      CompleteTurns(c, a.(choice := a.choice.(ackPending := false), lastNow := call.now), crypto, call.now, answers);
    }
  }

  lemma AfterReceive(c: Config, a: Attempt, crypto: Crypto, call: Call, answers: Answers)
    requires call.Receive?
    ensures AfterCheck(c, a, crypto, call, answers) == Received(c, a, crypto, call.bytes, call.now, answers)
  {
    hide Received;
  }

  lemma AfterTurns(c: Config, a: Attempt, crypto: Crypto, call: Call, answers: Answers)
    requires !call.Shutdown?
    ensures Turns(a, call.now, answers.replay, AfterCheck(c, a, crypto, call, answers))
  {
    hide Turns, AfterCheck;
    if call.Receive? {
      AfterReceive(c, a, crypto, call, answers);
      ReceivedTurns(c, a, crypto, call.bytes, call.now, answers);
    } else {
      OthersTurn(c, a, crypto, call, answers);
    }
  }

  /** The step of a call, and the time it leaves. */
  predicate Passes(a: Attempt, call: Call, replay: Option<PairingError>, r: Step) {
    && (if call.Shutdown? then r.attempt.lastNow == a.lastNow && r.update.binding.None?
        else Turns(a.(lastNow := Max(a.lastNow, call.now)), call.now, replay, r))
    && (Terminal(a.phase) ==> r.attempt.phase == a.phase && r.update.binding.None?)
    && (r.update.binding.None? && r.attempt.phase == AwaitingDecisions ==> a.phase == AwaitingDecisions)
    && (a.phase == AwaitingDecisions ==> r.attempt.phase == AwaitingDecisions || Terminal(r.attempt.phase))
  }

  lemma PerformPasses(c: Config, a: Attempt, crypto: Crypto, call: Call, answers: Answers)
    ensures Passes(a, call, answers.replay, Perform(c, a, crypto, call, answers))
  {
    hide AfterCheck, Encoded;
    if !call.Shutdown? {
      AfterTurns(c, a.(lastNow := Max(a.lastNow, call.now)), crypto, call, answers);
    }
  }

  /** What the replay reservation answers does not change which context it is asked about. */
  lemma SameBinding(c: Config, a: Attempt, crypto: Crypto, call: Call, answers: Answers)
    ensures Perform(c, a, crypto, call, answers).update.binding ==
            Perform(c, a, crypto, call, answers.(replay := None)).update.binding
  {
    hide ParseFrame, DecodeHello, DecodeSelection, DecodeDecision, DecodeAbort, VerifyConfirmation, SelectBetween,
      Encoded, OfferOk, BuildConfirmation, Prompted, SendSelection;
  }

  // ----- What an operation of the cache keeps -----

  /** Entries that are reserved, or committed until `t`, stay. */
  ghost predicate KeepsAll(before: Replay.Cache, after: Replay.Cache, t: int) {
    forall e :: e in before.entries && (e.reserved || e.expires >= t) ==> e in after.entries
  }

  /** The same of the entries of other reservations. */
  ghost predicate KeepsOthers(before: Replay.Cache, after: Replay.Cache, id: u64, t: int) {
    forall e :: e in before.entries && e.id != id && (e.reserved || e.expires >= t) ==> e in after.entries
  }

  lemma PruneKeeps(c: Replay.Cache, now: u64, t: int)
    requires now < t
    ensures KeepsAll(c, Replay.Pruned(c, now), t)
  {
    Replay.WithoutFrom(c.entries, Replay.Expired(now));
  }

  lemma ReserveKeeps(c: Replay.Cache, peer: seq<u8>, now: u64, t: int)
    requires now < t
    ensures KeepsAll(c, Replay.Reserve(c, peer, now).0, t)
  {
    PruneKeeps(c, now, t);
  }

  lemma RememberKeeps(c: Replay.Cache, context: seq<u8>, peer: seq<u8>, now: u64, t: int)
    requires now < t
    ensures KeepsAll(c, Replay.Remember(c, context, peer, now).0, t)
  {
    PruneKeeps(c, now, t);
  }

  lemma UpdateKeeps(c: Replay.Cache, i: nat, e: Replay.Entry, t: int)
    requires i < |c.entries|
    ensures KeepsOthers(c, c.(entries := c.entries[i := e]), c.entries[i].id, t) && e in c.entries[i := e]
  {
    var after := c.entries[i := e];
    assert after[i] == e;
    forall x | x in c.entries && x.id != c.entries[i].id ensures x in after {
      var k :| 0 <= k < |c.entries| && c.entries[k] == x;
      assert after[k] == x;
    }
  }

  lemma ReleaseKeeps(c: Replay.Cache, id: u64, t: int)
    ensures KeepsOthers(c, Replay.Released(c, id), id, t)
  {
    Replay.WithoutFrom(c.entries, Replay.Reservation(id));
  }

  lemma BindKeeps(c: Replay.Cache, id: u64, context: seq<u8>, now: u64, t: int)
    requires now < t
    ensures KeepsOthers(c, Replay.Bind(c, id, context, now).0, id, t)
  {
    PruneKeeps(c, now, t);
    var p := Replay.Pruned(c, now);
    var i := Replay.Find(p.entries, id);
    if i < |p.entries| {
      UpdateKeeps(p, i, p.entries[i].(context := context, bound := true), t);
    }
  }

  lemma CommitKeeps(c: Replay.Cache, id: u64, now: u64, t: int)
    ensures KeepsOthers(c, Replay.Commit(c, id, now), id, t)
  {
    ReleaseKeeps(c, id, t);
    var i := Replay.Find(c.entries, id);
    if i < |c.entries| {
      UpdateKeeps(c, i, c.entries[i].(expires := SaturatingAdd(now, Replay.RETENTION), reserved := false), t);
    }
  }

  /** No two entries share the identifier of a reservation. */
  lemma OneEntry(c: Replay.Cache, e: Replay.Entry, f: Replay.Entry)
    requires Replay.Inv(c) && e in c.entries && f in c.entries && e.id == f.id != 0
    ensures e == f
  {
    var i :| 0 <= i < |c.entries| && c.entries[i] == e;
    var j :| 0 <= j < |c.entries| && c.entries[j] == f;
    assert i < j ==> Replay.Together(c.entries[i], c.entries[j]);
    assert j < i ==> Replay.Together(c.entries[j], c.entries[i]);
  }

  lemma FindsOwn(c: Replay.Cache, e: Replay.Entry)
    requires Replay.Inv(c) && e in c.entries && e.id != 0
    ensures var i := Replay.Find(c.entries, e.id); i < |c.entries| && c.entries[i] == e
  {
    var i := Replay.Find(c.entries, e.id);
    assert i < |c.entries|;
    OneEntry(c, e, c.entries[i]);
  }

  /** A reservation that is not bound is bound, unless its peer's context is remembered. */
  lemma BindOwn(c: Replay.Cache, e: Replay.Entry, context: seq<u8>, now: u64)
    requires Replay.Inv(c) && e in c.entries && e.reserved && !e.bound
    ensures var (after, result) := Replay.Bind(c, e.id, context, now);
            if Replay.Contains(Replay.Pruned(c, now).entries, context, e.peer)
            then result == Replay.ReplayDetected && e in after.entries
            else result == Replay.Bound && e.(context := context, bound := true) in after.entries
  {
    assert Replay.Sound(e);
    PruneKeeps(c, now, U64_MAX + 1);
    Replay.WithoutInv(c, Replay.Expired(now));
    var p := Replay.Pruned(c, now);
    FindsOwn(p, e);
    var i := Replay.Find(p.entries, e.id);
    UpdateKeeps(p, i, e.(context := context, bound := true), 0);
    assert Replay.Duplicate(p.entries, i, context) <==> Replay.Contains(p.entries, context, e.peer) by {
      forall j | 0 <= j < |p.entries| && Replay.Remembers(p.entries[j], context, e.peer)
        ensures p.entries[j].id != e.id
      {
        if p.entries[j].id == e.id {
          OneEntry(p, e, p.entries[j]);
        }
      }
    }
  }

  lemma CommitOwn(c: Replay.Cache, e: Replay.Entry, now: u64)
    requires Replay.Inv(c) && e in c.entries && e.reserved && e.bound
    ensures e.(expires := SaturatingAdd(now, Replay.RETENTION), reserved := false) in
            Replay.Commit(c, e.id, now).entries
  {
    assert Replay.Sound(e);
    FindsOwn(c, e);
    UpdateKeeps(c, Replay.Find(c.entries, e.id), e.(expires := SaturatingAdd(now, Replay.RETENTION), reserved := false),
                0);
  }

  // ----- The attempts and their cache -----

  /** An attempt with the identifier of its reservation, zero once it has been committed. */
  datatype Session = Session(config: Config, crypto: Crypto, attempt: Attempt, id: u64)

  datatype World = World(cache: Replay.Cache, sessions: seq<Session>)

  const START := World(Replay.Cache(1, []), [])

  /** `Create` gets as far as asking for a reservation. */
  predicate AsksToReserve(c: Config, crypto: Crypto, given: Given) {
    given.ready && given.leased && CreateError(c, crypto, given.(reserved := false)) == Some(Busy)
  }

  /** `Create`: an attempt takes its reservation with it; without one the reservation is released again. */
  function Made(w: World, c: Config, crypto: Crypto, given: Given): World {
    if !AsksToReserve(c, crypto, given) then w
    else
      var (cache, id) := Replay.Reserve(w.cache, c.peerKey, c.admittedAt);
      if id.None? then w.(cache := cache)
      else if CreateError(c, crypto, given.(reserved := true)).Some? then w.(cache := Replay.Released(cache, id.value))
      else World(cache, w.sessions + [Session(c, crypto, Created(c), id.value)])
  }

  /** The context that a call binds to the reservation. */
  function BindingOf(s: Session, call: Call, answers: Answers): Option<Bytes32> {
    Perform(s.config, s.attempt, s.crypto, call, answers.(replay := None)).update.binding
  }

  function BindError(result: Replay.BindResult): Option<PairingError> {
    match result
    case Bound => None
    case StateViolation => Some(PairingError.StateViolation)
    case ReplayDetected => Some(PairingError.ReplayDetected)
  }

  /** The reservation is asked: the cache afterwards and the answer. */
  function Bind(cache: Replay.Cache, s: Session, call: Call, answers: Answers): (Replay.Cache, Option<PairingError>) {
    var digest := BindingOf(s, call, answers);
    if digest.None? || call.Shutdown? then (cache, None)
    else
      var (after, result) := Replay.Bind(cache, s.id, digest.value, call.now);
      (after, BindError(result))
  }

  function StepOf(cache: Replay.Cache, s: Session, call: Call, answers: Answers): Step {
    Perform(s.config, s.attempt, s.crypto, call, answers.(replay := Bind(cache, s, call, answers).1))
  }

  /** A call of an attempt; the reservation is committed at the attempt's last time when the attempt ends. */
  function Called(w: World, k: nat, call: Call, answers: Answers): World
    requires k < |w.sessions|
  {
    var s := w.sessions[k];
    var cache, next := Bind(w.cache, s, call, answers).0, StepOf(w.cache, s, call, answers).attempt;
    if Terminal(next.phase) && !Terminal(s.attempt.phase) then
      World(Replay.Commit(cache, s.id, next.lastNow), w.sessions[k := s.(attempt := next, id := 0)])
    else World(cache, w.sessions[k := s.(attempt := next)])
  }

  /** `Calling` with `Shutdown` is also the destructor. */
  datatype Event =
    | Creating(config: Config, crypto: Crypto, given: Given)
    | Calling(k: nat, call: Call, answers: Answers)
    | Asking(context: seq<u8>, peer: seq<u8>, now: u64)
    | Remembering(context: seq<u8>, peer: seq<u8>, now: u64)

  function Happen(w: World, event: Event): World {
    match event
    case Creating(c, crypto, given) => Made(w, c, crypto, given)
    case Calling(k, call, answers) => if k < |w.sessions| then Called(w, k, call, answers) else w
    case Asking(_, _, now) => w.(cache := Replay.Pruned(w.cache, now))
    case Remembering(context, peer, now) => w.(cache := Replay.Remember(w.cache, context, peer, now).0)
  }

  function Run(w: World, events: seq<Event>): World
    decreases |events|
  {
    if |events| == 0 then w else Run(Happen(w, events[0]), events[1..])
  }

  // ----- The invariant -----

  /** The entry of an attempt: reserved for its peer, and bound once the user is asked. */
  predicate Holds(e: Replay.Entry, s: Session) {
    e.id == s.id && e.reserved && e.peer == s.config.peerKey && (e.bound <==> s.attempt.phase == AwaitingDecisions)
  }

  ghost predicate SessionOk(cache: Replay.Cache, s: Session) {
    Terminal(s.attempt.phase) || exists e :: e in cache.entries && Holds(e, s)
  }

  predicate Distinct(s: Session, t: Session) {
    Terminal(s.attempt.phase) || Terminal(t.attempt.phase) || s.id != t.id
  }

  /** Every attempt that has not ended has its entry, and no two have the same. */
  ghost predicate WorldOk(w: World) {
    && Replay.Inv(w.cache)
    && (forall k :: 0 <= k < |w.sessions| ==> SessionOk(w.cache, w.sessions[k]))
    && (forall j, k :: 0 <= j < k < |w.sessions| ==> Distinct(w.sessions[j], w.sessions[k]))
  }

  lemma StartOk()
    ensures WorldOk(START)
  {
  }

  /** An operation that keeps all reservations keeps every attempt's entry. */
  lemma CacheOk(w: World, cache: Replay.Cache)
    requires WorldOk(w) && Replay.Inv(cache) && KeepsAll(w.cache, cache, U64_MAX + 1)
    ensures WorldOk(w.(cache := cache))
  {
    hide Replay.Inv;
  }

  /** An operation that keeps the other reservations, and what becomes of the attempt itself. */
  lemma SessionsOk(w: World, k: nat, cache: Replay.Cache, s: Session)
    requires WorldOk(w) && k < |w.sessions| && !Terminal(w.sessions[k].attempt.phase)
    requires Replay.Inv(cache) && KeepsOthers(w.cache, cache, w.sessions[k].id, U64_MAX + 1)
    requires SessionOk(cache, s) && (Terminal(s.attempt.phase) || s.id == w.sessions[k].id)
    ensures WorldOk(World(cache, w.sessions[k := s]))
  {
    hide Replay.Inv;
    var after := w.sessions[k := s];
    forall j | 0 <= j < |after| ensures SessionOk(cache, after[j]) {
      if j != k {
        assert Distinct(w.sessions[k], w.sessions[j]) by { SessionsDiffer(w, k, j); }
        assert SessionOk(w.cache, w.sessions[j]);
      }
    }
    forall i, j | 0 <= i < j < |after| ensures Distinct(after[i], after[j]) {
      assert Distinct(w.sessions[i], w.sessions[j]);
    }
  }

  lemma SessionsDiffer(w: World, j: nat, k: nat)
    requires WorldOk(w) && j < |w.sessions| && k < |w.sessions| && j != k
    ensures Distinct(w.sessions[j], w.sessions[k])
  {
    assert j < k ==> Distinct(w.sessions[j], w.sessions[k]);
    assert k < j ==> Distinct(w.sessions[k], w.sessions[j]);
  }

  /** What the step of a call is, given what the reservation answered. */
  lemma StepPasses(cache: Replay.Cache, s: Session, call: Call, answers: Answers)
    ensures var r := StepOf(cache, s, call, answers);
            Passes(s.attempt, call, Bind(cache, s, call, answers).1, r)
              && r.update.binding == BindingOf(s, call, answers)
  {
    hide Perform, Passes, Bind;
    var given := answers.(replay := Bind(cache, s, call, answers).1);
    PerformPasses(s.config, s.attempt, s.crypto, call, given);
    SameBinding(s.config, s.attempt, s.crypto, call, given);
    assert given.(replay := None) == answers.(replay := None);
  }

  /** The cache after a call asked the reservation, and what the attempt's entry is then. */
  ghost predicate Asked(cache: Replay.Cache, s: Session, call: Call, answers: Answers, e: Replay.Entry,
                        f: Replay.Entry) {
    var (after, replay) := Bind(cache, s, call, answers);
    var digest, r := BindingOf(s, call, answers), StepOf(cache, s, call, answers);
    && Replay.Inv(after) && f in after.entries
    && f == (if digest.Some? && replay.None? then e.(context := digest.value, bound := true) else e)
    && (digest.None? ==> after == cache && replay.None?)
    && (digest.Some? ==>
          && !call.Shutdown? && !e.bound && r.attempt.lastNow >= call.now
          && replay == if Replay.Contains(Replay.Pruned(cache, call.now).entries, digest.value, e.peer)
                       then Some(PairingError.ReplayDetected) else None)
    && (replay.Some? ==> r.attempt.phase == Closed && r.update.error == replay)
    && (Terminal(r.attempt.phase) || (f.bound <==> r.attempt.phase == AwaitingDecisions))
  }

  lemma BindStep(cache: Replay.Cache, s: Session, call: Call, answers: Answers, e: Replay.Entry)
      returns (f: Replay.Entry)
    requires Replay.Inv(cache) && !Terminal(s.attempt.phase) && e in cache.entries && Holds(e, s)
    ensures Asked(cache, s, call, answers, e, f)
  {
    hide BindingOf, StepOf, Replay.Inv, Replay.Bind, Replay.Contains, Replay.Pruned;
    StepPasses(cache, s, call, answers);
    var digest := BindingOf(s, call, answers);
    if digest.Some? && !call.Shutdown? {
      Replay.BindInv(cache, s.id, digest.value, call.now);
      BindOwn(cache, e, digest.value, call.now);
    }
    f := if digest.Some? && Bind(cache, s, call, answers).1.None? then e.(context := digest.value, bound := true)
      else e;
  }

  lemma BindKeepsOthers(cache: Replay.Cache, s: Session, call: Call, answers: Answers, t: int)
    requires call.Shutdown? || call.now < t
    ensures KeepsOthers(cache, Bind(cache, s, call, answers).0, s.id, t)
  {
    hide BindingOf, Replay.Bind;
    var digest := BindingOf(s, call, answers);
    if digest.Some? && !call.Shutdown? {
      BindKeeps(cache, s.id, digest.value, call.now, t);
    }
  }

  /** The cache after a call. */
  lemma CalledKeepsOthers(w: World, k: nat, call: Call, answers: Answers, t: int)
    requires k < |w.sessions| && (call.Shutdown? || call.now < t)
    ensures KeepsOthers(w.cache, Called(w, k, call, answers).cache, w.sessions[k].id, t)
  {
    hide Bind, StepOf, Replay.Commit;
    var s := w.sessions[k];
    BindKeepsOthers(w.cache, s, call, answers, t);
    CommitKeeps(Bind(w.cache, s, call, answers).0, s.id, StepOf(w.cache, s, call, answers).attempt.lastNow, t);
  }

  /** A call of an attempt that has ended changes nothing but its time. */
  lemma EndedStays(w: World, k: nat, call: Call, answers: Answers)
    requires k < |w.sessions| && Terminal(w.sessions[k].attempt.phase)
    ensures var t := Called(w, k, call, answers);
            t.cache == w.cache && t.sessions == w.sessions[k := t.sessions[k]] && Terminal(t.sessions[k].attempt.phase)
    ensures BindingOf(w.sessions[k], call, answers).None?
  {
    hide BindingOf, StepOf, Replay.Bind;
    StepPasses(w.cache, w.sessions[k], call, answers);
  }

  lemma EndedOk(w: World, k: nat, s: Session)
    requires WorldOk(w) && k < |w.sessions| && Terminal(s.attempt.phase)
    ensures WorldOk(w.(sessions := w.sessions[k := s]))
  {
    hide Replay.Inv;
  }

  lemma CalledOk(w: World, k: nat, call: Call, answers: Answers)
    requires WorldOk(w) && k < |w.sessions|
    ensures WorldOk(Called(w, k, call, answers))
  {
    hide Bind, BindingOf, StepOf, Replay.Inv, Replay.Commit, KeepsOthers;
    var s := w.sessions[k];
    if Terminal(s.attempt.phase) {
      EndedStays(w, k, call, answers);
      EndedOk(w, k, Called(w, k, call, answers).sessions[k]);
    } else {
      assert SessionOk(w.cache, s);
      var e :| e in w.cache.entries && Holds(e, s);
      var f := BindStep(w.cache, s, call, answers, e);
      var cache, next := Bind(w.cache, s, call, answers).0, StepOf(w.cache, s, call, answers).attempt;
      CalledKeepsOthers(w, k, call, answers, U64_MAX + 1);
      if Terminal(next.phase) {
        Replay.CommitInv(cache, s.id, next.lastNow);
        SessionsOk(w, k, Replay.Commit(cache, s.id, next.lastNow), s.(attempt := next, id := 0));
      } else {
        assert Holds(f, s.(attempt := next));
        SessionsOk(w, k, cache, s.(attempt := next));
      }
    }
  }

  /** A reservation is given an identifier that no entry which stays has. */
  lemma ReserveFresh(c: Replay.Cache, peer: seq<u8>, now: u64, t: int)
    requires now < t && Replay.Reserve(c, peer, now).1.Some?
    ensures var (after, id) := Replay.Reserve(c, peer, now);
            && Replay.Entry(id.value, [], peer, 0, false, true) in after.entries && id.value != 0
            && (forall e :: e in c.entries && (e.reserved || e.expires >= t) ==> e.id != id.value)
            && KeepsAll(c, Replay.Released(after, id.value), t)
  {
    PruneKeeps(c, now, t);
    var (after, id) := Replay.Reserve(c, peer, now);
    Replay.WithoutFrom(after.entries, Replay.Reservation(id.value));
  }

  lemma MadeKeeps(w: World, c: Config, crypto: Crypto, given: Given, t: int)
    requires c.admittedAt < t
    ensures KeepsAll(w.cache, Made(w, c, crypto, given).cache, t)
  {
    hide CreateError, Replay.Reserve, Replay.Released;
    ReserveKeeps(w.cache, c.peerKey, c.admittedAt, t);
    if Replay.Reserve(w.cache, c.peerKey, c.admittedAt).1.Some? {
      ReserveFresh(w.cache, c.peerKey, c.admittedAt, t);
    }
  }

  lemma MadeInv(w: World, c: Config, crypto: Crypto, given: Given)
    requires Replay.Inv(w.cache)
    ensures Replay.Inv(Made(w, c, crypto, given).cache)
  {
    hide CreateError, Replay.Inv, Replay.Reserve;
    var (cache, id) := Replay.Reserve(w.cache, c.peerKey, c.admittedAt);
    Replay.StepInv(w.cache, Replay.Reserving(c.peerKey, c.admittedAt));
    if id.Some? {
      Replay.StepInv(cache, Replay.Dropping(id.value));
    }
  }

  /** A new attempt stands beside the others. */
  lemma JoinOk(w: World, s: Session, e: Replay.Entry)
    requires WorldOk(w) && e in w.cache.entries && Holds(e, s)
    requires forall k :: 0 <= k < |w.sessions| ==> Distinct(w.sessions[k], s)
    ensures WorldOk(w.(sessions := w.sessions + [s]))
  {
    hide Replay.Inv;
  }

  lemma MadeOk(w: World, c: Config, crypto: Crypto, given: Given)
    requires WorldOk(w)
    ensures WorldOk(Made(w, c, crypto, given))
  {
    hide CreateError, Replay.Inv, Replay.Reserve, Replay.Released;
    var (cache, id) := Replay.Reserve(w.cache, c.peerKey, c.admittedAt);
    MadeInv(w, c, crypto, given);
    MadeKeeps(w, c, crypto, given, U64_MAX + 1);
    var after := Made(w, c, crypto, given);
    CacheOk(w, after.cache);
    if after.sessions != w.sessions {
      ReserveFresh(w.cache, c.peerKey, c.admittedAt, U64_MAX + 1);
      var s := Session(c, crypto, Created(c), id.value);
      forall k | 0 <= k < |w.sessions| ensures Distinct(w.sessions[k], s) {
        assert SessionOk(w.cache, w.sessions[k]);
      }
      JoinOk(w.(cache := cache), s, Replay.Entry(id.value, [], c.peerKey, 0, false, true));
    }
  }

  lemma HappenOk(w: World, event: Event)
    requires WorldOk(w)
    ensures WorldOk(Happen(w, event))
  {
    hide Made, Called, Replay.Inv, Replay.Remember, Replay.Pruned;
    match event
    case Creating(c, crypto, given) => MadeOk(w, c, crypto, given);
    case Calling(k, call, answers) =>
      if k < |w.sessions| {
        CalledOk(w, k, call, answers);
      }
    case Asking(context, peer, now) =>
      Replay.StepInv(w.cache, Replay.Asking(context, peer, now));
      PruneKeeps(w.cache, now, U64_MAX + 1);
      CacheOk(w, Replay.Pruned(w.cache, now));
    case Remembering(context, peer, now) =>
      Replay.StepInv(w.cache, Replay.Remembering(context, peer, now));
      RememberKeeps(w.cache, context, peer, now, U64_MAX + 1);
      CacheOk(w, Replay.Remember(w.cache, context, peer, now).0);
  }

  lemma {:induction false} RunOk(w: World, events: seq<Event>)
    requires WorldOk(w)
    ensures WorldOk(Run(w, events))
    decreases |events|
  {
    hide WorldOk, Happen;
    if |events| > 0 {
      HappenOk(w, events[0]);
      RunOk(Happen(w, events[0]), events[1..]);
    }
  }

  // ----- Retention -----

  /** The attempt that holds a reservation was last called at `from` or later. */
  ghost predicate Owned(w: World, id: u64, from: u64) {
    exists k :: 0 <= k < |w.sessions| && Owns(w.sessions[k], id, from)
  }

  predicate Owns(s: Session, id: u64, from: u64) {
    !Terminal(s.attempt.phase) && s.id == id && s.attempt.lastNow >= from
  }

  function Until(from: u64): u64 {
    SaturatingAdd(from, Replay.RETENTION)
  }

  /** The entry is committed for the retention period, or will be when its attempt ends. */
  ghost predicate Guards(w: World, e: Replay.Entry, context: seq<u8>, peer: seq<u8>, from: u64) {
    && e in w.cache.entries && Replay.Remembers(e, context, peer)
    && (if e.reserved then Owned(w, e.id, from) else e.expires >= Until(from))
  }

  ghost predicate Guarded(w: World, context: seq<u8>, peer: seq<u8>, from: u64) {
    exists e :: Guards(w, e, context, peer, from)
  }

  /** The event comes within the retention period; calls come no earlier than `from`, by the steady clock. */
  predicate Timely(event: Event, from: u64) {
    match event
    case Creating(c, _, _) => c.admittedAt < Until(from)
    case Calling(_, call, _) => call.Shutdown? || from <= call.now < Until(from)
    case Asking(_, _, now) => now < Until(from)
    case Remembering(_, _, now) => now < Until(from)
  }

  predicate AllTimely(events: seq<Event>, from: u64) {
    forall i :: 0 <= i < |events| ==> Timely(events[i], from)
  }

  lemma KeptGuarded(w: World, after: World, e: Replay.Entry, context: seq<u8>, peer: seq<u8>, from: u64)
    requires Guards(w, e, context, peer, from) && e in after.cache.entries
    requires forall k :: 0 <= k < |w.sessions| && Owns(w.sessions[k], e.id, from) ==>
               k < |after.sessions| && Owns(after.sessions[k], e.id, from)
    ensures Guarded(after, context, peer, from)
  {
    if e.reserved {
      var k :| 0 <= k < |w.sessions| && Owns(w.sessions[k], e.id, from);
      assert Owns(after.sessions[k], e.id, from);
    }
    assert Guards(after, e, context, peer, from);
  }

  /** The call of the attempt that holds the entry. */
  lemma OwnerGuards(w: World, k: nat, call: Call, answers: Answers, e: Replay.Entry, context: seq<u8>, peer: seq<u8>,
                    from: u64)
    requires WorldOk(w) && k < |w.sessions| && Guards(w, e, context, peer, from) && e.reserved
    requires Owns(w.sessions[k], e.id, from) && (call.Shutdown? || from <= call.now)
    ensures Guarded(Called(w, k, call, answers), context, peer, from)
  {
    hide Bind, BindingOf, StepOf, Replay.Inv, Replay.Commit;
    var s := w.sessions[k];
    assert SessionOk(w.cache, s);
    var own :| own in w.cache.entries && Holds(own, s);
    assert Replay.Sound(e) by { assert Replay.Inv(w.cache); SoundEntry(w.cache, e); }
    OneEntry(w.cache, e, own);
    var f := BindStep(w.cache, s, call, answers, e);
    StepPasses(w.cache, s, call, answers);
    var after, next := Called(w, k, call, answers), StepOf(w.cache, s, call, answers).attempt;
    assert next.lastNow >= from;
    if Terminal(next.phase) {
      CommitOwn(w.cache, e, next.lastNow);
      assert Guards(after, e.(expires := SaturatingAdd(next.lastNow, Replay.RETENTION), reserved := false), context,
                    peer, from);
    } else {
      assert Owns(after.sessions[k], e.id, from);
      assert Guards(after, e, context, peer, from);
    }
  }

  lemma SoundEntry(c: Replay.Cache, e: Replay.Entry)
    requires Replay.Inv(c) && e in c.entries
    ensures Replay.Sound(e)
  {
  }

  lemma OtherGuards(w: World, k: nat, call: Call, answers: Answers, e: Replay.Entry, context: seq<u8>, peer: seq<u8>,
                    from: u64)
    requires WorldOk(w) && k < |w.sessions| && !Terminal(w.sessions[k].attempt.phase)
    requires Guards(w, e, context, peer, from)
    requires !e.reserved || !Owns(w.sessions[k], e.id, from)
    requires call.Shutdown? || call.now < Until(from)
    ensures Guarded(Called(w, k, call, answers), context, peer, from)
  {
    hide Bind, BindingOf, StepOf, Replay.Inv, Replay.Commit;
    var s := w.sessions[k];
    assert SessionOk(w.cache, s);
    var own :| own in w.cache.entries && Holds(own, s);
    SoundEntry(w.cache, own);
    if e.id == s.id {
      OneEntry(w.cache, e, own);
      var o :| 0 <= o < |w.sessions| && Owns(w.sessions[o], e.id, from);
      SessionsDiffer(w, o, k);
    }
    CalledKeepsOthers(w, k, call, answers, Until(from));
    KeptGuarded(w, Called(w, k, call, answers), e, context, peer, from);
  }

  lemma CalledGuarded(w: World, k: nat, call: Call, answers: Answers, context: seq<u8>, peer: seq<u8>, from: u64)
    requires WorldOk(w) && k < |w.sessions| && Guarded(w, context, peer, from)
    requires call.Shutdown? || from <= call.now < Until(from)
    ensures Guarded(Called(w, k, call, answers), context, peer, from)
  {
    hide Called, Guards, Replay.Inv;
    var e :| Guards(w, e, context, peer, from);
    if Terminal(w.sessions[k].attempt.phase) {
      EndedStays(w, k, call, answers);
      EndedGuards(w, k, Called(w, k, call, answers), e, context, peer, from);
    } else if e.reserved && Owns(w.sessions[k], e.id, from) {
      OwnerGuards(w, k, call, answers, e, context, peer, from);
    } else {
      OtherGuards(w, k, call, answers, e, context, peer, from);
    }
  }

  lemma EndedGuards(w: World, k: nat, after: World, e: Replay.Entry, context: seq<u8>, peer: seq<u8>, from: u64)
    requires k < |w.sessions| == |after.sessions| && Guards(w, e, context, peer, from) && after.cache == w.cache
    requires Terminal(w.sessions[k].attempt.phase) && after.sessions == w.sessions[k := after.sessions[k]]
    ensures Guarded(after, context, peer, from)
  {
    KeptGuarded(w, after, e, context, peer, from);
  }

  /** An operation that keeps what is guarded, and adds attempts at most. */
  lemma CacheGuarded(w: World, after: World, context: seq<u8>, peer: seq<u8>, from: u64)
    requires Guarded(w, context, peer, from) && KeepsAll(w.cache, after.cache, Until(from))
    requires w.sessions <= after.sessions
    ensures Guarded(after, context, peer, from)
  {
    var e :| Guards(w, e, context, peer, from);
    KeptGuarded(w, after, e, context, peer, from);
  }

  /** Whatever happens within the retention period, what is guarded stays guarded. */
  lemma HappenGuarded(w: World, event: Event, context: seq<u8>, peer: seq<u8>, from: u64)
    requires WorldOk(w) && Guarded(w, context, peer, from) && Timely(event, from)
    ensures Guarded(Happen(w, event), context, peer, from)
  {
    hide WorldOk, Called, Guarded, Replay.Remember, Replay.Pruned, Replay.Reserve, KeepsAll, CreateError;
    var after := Happen(w, event);
    match event
    case Creating(c, crypto, given) =>
      MadeKeeps(w, c, crypto, given, Until(from));
      CacheGuarded(w, after, context, peer, from);
    case Calling(k, call, answers) =>
      if k < |w.sessions| {
        CalledGuarded(w, k, call, answers, context, peer, from);
      }
    case Asking(_, _, now) =>
      PruneKeeps(w.cache, now, Until(from));
      CacheGuarded(w, after, context, peer, from);
    case Remembering(other, asker, now) =>
      RememberKeeps(w.cache, other, asker, now, Until(from));
      CacheGuarded(w, after, context, peer, from);
  }

  lemma {:induction false} RunGuarded(w: World, events: seq<Event>, context: seq<u8>, peer: seq<u8>, from: u64)
    requires WorldOk(w) && Guarded(w, context, peer, from) && AllTimely(events, from)
    ensures WorldOk(Run(w, events)) && Guarded(Run(w, events), context, peer, from)
    decreases |events|
  {
    hide WorldOk, Guarded, Happen, Timely;
    if |events| > 0 {
      HappenOk(w, events[0]);
      HappenGuarded(w, events[0], context, peer, from);
      RunGuarded(Happen(w, events[0]), events[1..], context, peer, from);
    }
  }

  // ----- What attempts are told -----

  /** An attempt that comes to its context is told of a replay, and closes with it, if and only if the context is
      remembered for its peer; the reservation never refuses for any other reason. */
  lemma ReplayExactly(events: seq<Event>, k: nat, call: Call, answers: Answers)
    requires var w := Run(START, events); k < |w.sessions| && BindingOf(w.sessions[k], call, answers).Some?
    ensures var w := Run(START, events); var s := w.sessions[k]; var digest := BindingOf(s, call, answers).value;
            var replay, r := Bind(w.cache, s, call, answers).1, StepOf(w.cache, s, call, answers);
            && !call.Shutdown?
            && replay == (if Replay.Contains(Replay.Pruned(w.cache, call.now).entries, digest, s.config.peerKey)
                          then Some(PairingError.ReplayDetected) else None)
            && (replay.Some? ==> r.attempt.phase == Closed && r.update.error == replay)
  {
    StartOk();
    RunOk(START, events);
    hide Run, Bind, BindingOf, StepOf, Replay.Inv, Replay.Contains, Replay.Pruned;
    BindingTold(Run(START, events), k, call, answers);
  }

  lemma BindingTold(w: World, k: nat, call: Call, answers: Answers)
    requires WorldOk(w) && k < |w.sessions| && BindingOf(w.sessions[k], call, answers).Some?
    ensures var s := w.sessions[k];
            && !Terminal(s.attempt.phase)
            && exists e, f :: e in w.cache.entries && Holds(e, s) && Asked(w.cache, s, call, answers, e, f)
  {
    hide Called, Bind, BindingOf, StepOf, Replay.Inv, Replay.Contains, Replay.Pruned;
    var s := w.sessions[k];
    if Terminal(s.attempt.phase) {
      EndedStays(w, k, call, answers);
    }
    assert SessionOk(w.cache, s);
    var e :| e in w.cache.entries && Holds(e, s);
    var f := BindStep(w.cache, s, call, answers, e);
  }

  /** A call that binds a context guards it, whatever else the call does to the attempt. */
  lemma BindingGuards(w: World, k: nat, call: Call, answers: Answers)
    requires WorldOk(w) && k < |w.sessions| && BindingOf(w.sessions[k], call, answers).Some?
    requires Bind(w.cache, w.sessions[k], call, answers).1.None?
    ensures var s := w.sessions[k];
            !call.Shutdown? && Guarded(Called(w, k, call, answers), BindingOf(s, call, answers).value, s.config.peerKey,
                                       call.now)
  {
    hide Bind, BindingOf, StepOf, Replay.Inv, Replay.Contains, Replay.Pruned, Replay.Commit;
    BindingTold(w, k, call, answers);
    var s := w.sessions[k];
    var e, f :| e in w.cache.entries && Holds(e, s) && Asked(w.cache, s, call, answers, e, f);
    var after, next := Called(w, k, call, answers), StepOf(w.cache, s, call, answers).attempt;
    if Terminal(next.phase) {
      CommitOwn(Bind(w.cache, s, call, answers).0, f, next.lastNow);
      assert Guards(after, f.(expires := SaturatingAdd(next.lastNow, Replay.RETENTION), reserved := false), f.context,
                    f.peer, call.now);
    } else {
      assert Owns(after.sessions[k], f.id, call.now);
      assert Guards(after, f, f.context, f.peer, call.now);
    }
  }

  lemma GuardedContains(w: World, context: seq<u8>, peer: seq<u8>, from: u64, now: u64)
    requires Guarded(w, context, peer, from) && now < Until(from)
    ensures Replay.Contains(Replay.Pruned(w.cache, now).entries, context, peer)
  {
    PruneKeeps(w.cache, now, Until(from));
    var e :| Guards(w, e, context, peer, from);
    var p := Replay.Pruned(w.cache, now).entries;
    var i :| 0 <= i < |p| && p[i] == e;
    assert Replay.Remembers(p[i], context, peer);
  }

  /** A call of an attempt of the peer comes to the context before `t`. */
  predicate Again(s: Session, call: Call, answers: Answers, digest: Bytes32, peer: Bytes32, t: u64) {
    BindingOf(s, call, answers) == Some(digest) && s.config.peerKey == peer && !call.Shutdown? && call.now < t
  }

  predicate Detected(cache: Replay.Cache, s: Session, call: Call, answers: Answers) {
    var r := StepOf(cache, s, call, answers);
    r.attempt.phase == Closed && r.update.error == Some(PairingError.ReplayDetected)
  }

  lemma AgainDetected(w: World, j: nat, call: Call, answers: Answers, digest: Bytes32, peer: Bytes32, from: u64)
    requires WorldOk(w) && Guarded(w, digest, peer, from) && j < |w.sessions|
    requires Again(w.sessions[j], call, answers, digest, peer, Until(from))
    ensures Detected(w.cache, w.sessions[j], call, answers)
  {
    hide Bind, BindingOf, StepOf, WorldOk, Guarded, Replay.Inv, Replay.Contains, Replay.Pruned;
    BindingTold(w, j, call, answers);
    GuardedContains(w, digest, peer, from, call.now);
  }

  /** A context that an attempt bound stays detected for the retention period, whatever becomes of the attempt: in every
      run of all attempts that share the cache, asking for it finds it, and no attempt of the peer can bind it again;
      one that tries closes. */
  lemma BoundStaysDetected(before: seq<Event>, k: nat, call: Call, answers: Answers, after: seq<Event>)
    requires var w := Run(START, before);
             && k < |w.sessions| && BindingOf(w.sessions[k], call, answers).Some? && !call.Shutdown?
             && Bind(w.cache, w.sessions[k], call, answers).1.None?
    requires AllTimely(after, call.now)
    ensures var w := Run(START, before);
            var digest, peer := BindingOf(w.sessions[k], call, answers).value, w.sessions[k].config.peerKey;
            var later := Run(Called(w, k, call, answers), after);
            && (forall now: u64 :: now < Until(call.now) ==>
                Replay.Contains(Replay.Pruned(later.cache, now).entries, digest, peer))
            && (forall j: nat, again: Call, given: Answers ::
                  j < |later.sessions| && Again(later.sessions[j], again, given, digest, peer, Until(call.now)) ==>
                    Detected(later.cache, later.sessions[j], again, given))
  {
    StartOk();
    RunOk(START, before);
    var w := Run(START, before);
    var digest, peer := BindingOf(w.sessions[k], call, answers).value, w.sessions[k].config.peerKey;
    hide Run, Bind, BindingOf, Called, WorldOk, Guarded, Replay.Contains, Replay.Pruned, Again, Detected;
    BindingGuards(w, k, call, answers);
    CalledOk(w, k, call, answers);
    RunGuarded(Called(w, k, call, answers), after, digest, peer, call.now);
    var later := Run(Called(w, k, call, answers), after);
    forall now: u64 | now < Until(call.now)
      ensures Replay.Contains(Replay.Pruned(later.cache, now).entries, digest, peer)
    {
      GuardedContains(later, digest, peer, call.now, now);
    }
    forall j: nat, again: Call, given: Answers |
      j < |later.sessions| && Again(later.sessions[j], again, given, digest, peer, Until(call.now))
      ensures Detected(later.cache, later.sessions[j], again, given)
    {
      AgainDetected(later, j, again, given, digest, peer, call.now);
    }
  }
}
