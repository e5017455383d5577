/** Threads, locks and the order of events at the transfer store. */
module TransferMachine {
  import opened Common
  import opened TransferStore
  import opened TransferRuns

  type Thread = nat

  /** Where a thread is inside an operation. The first three hold the backend lock, the next three the mutation lock. */
  datatype Place =
    | CallingSend | CallingOp(op: Operation) | Draining
    | Publishing(event: Payload) | Enqueuing(event: Payload) | Flushing(events: seq<Payload>)
    | Drained

  /** `published` is what was handed to the event channel, in order; `refused` counts events it was not given because
      the store was found closed. */
  datatype Machine = Machine(store: Store, backend: Option<Thread>, mutation: Option<Thread>,
                             threads: map<Thread, Place>, published: seq<Payload>, refused: nat)

  const START := Machine(EMPTY, None, None, map[], [], 0)

  datatype Step =
    | BeginSend(t: Thread)
    | EndSend(t: Thread, result: Started)
    | BeginOp(t: Thread, op: Operation)
    | EndOp(t: Thread, ok: bool)
    | IncomingOffer(t: Thread, id: seq<u8>, total: u64, peer: seq<u8>)
    | ApplyUpdate(t: Thread, id: seq<u8>, update: Update, transferred: u64)
    | CheckOpen(t: Thread)
    | Publish(t: Thread)
    | BeginShutdown(t: Thread)
    | BackendDown(t: Thread)
    | EndRecords(t: Thread)
    | Flush(t: Thread)

  predicate At(m: Machine, t: Thread, place: Place) {
    t in m.threads && m.threads[t] == place
  }

  /** The end of a mutating section by `t`: with an event it keeps the mutation lock until the event is out. */
  function Mutated(m: Machine, t: Thread, sec: Section): Machine {
    if sec.event.None? then m.(store := sec.store)
    else m.(store := sec.store, mutation := Some(t), threads := m.threads[t := Publishing(sec.event.value)])
  }

  function Left(m: Machine, t: Thread): Machine {
    m.(threads := m.threads - {t})
  }

  function Next(m: Machine, step: Step, valid: LabelCheck): Machine {
    var t, idle := step.t, step.t !in m.threads;
    match step
    case BeginSend(_) =>
      if !idle || m.backend.Some? || !Reserve(m.store).1 then m
      else m.(store := Reserve(m.store).0, backend := Some(t), threads := m.threads[t := CallingSend])
    case EndSend(_, result) =>
      if !At(m, t, CallingSend) || m.mutation.Some? || m.store.pending == 0 then m
      else Mutated(Left(m, t).(backend := None), t, FinishSend(m.store, result, valid))
    case BeginOp(_, op) =>
      if !idle || m.backend.Some? || !Admitted(m.store, op) then m
      else m.(backend := Some(t), threads := m.threads[t := CallingOp(op)])
    case EndOp(_, ok) =>
      if idle || !m.threads[t].CallingOp? || (ok && m.mutation.Some?) then m
      else if !ok then Left(m, t).(backend := None)
      else Mutated(Left(m, t).(backend := None), t, Finish(m.store, m.threads[t].op))
    case IncomingOffer(_, id, total, peer) =>
      if !idle || m.mutation.Some? then m else Mutated(m, t, Offer(m.store, id, total, peer, valid))
    case ApplyUpdate(_, id, update, transferred) =>
      if !idle || m.mutation.Some? then m else Mutated(m, t, Apply(m.store, id, update, transferred))
    case CheckOpen(_) =>
      if idle || !m.threads[t].Publishing? then m
      else if m.store.open then m.(threads := m.threads[t := Enqueuing(m.threads[t].event)])
      else Left(m, t).(mutation := None, refused := m.refused + 1)
    case Publish(_) =>
      if idle || !m.threads[t].Enqueuing? then m
      else Left(m, t).(mutation := None, published := m.published + [m.threads[t].event])
    case BeginShutdown(_) =>
      if !idle || m.backend.Some? || m.mutation.Some? || !m.store.open then m
      else m.(store := m.store.(open := false), backend := Some(t), threads := m.threads[t := Draining])
    case BackendDown(_) =>
      if !At(m, t, Draining) then m else m.(backend := None, threads := m.threads[t := Drained])
    case EndRecords(_) =>
      if !At(m, t, Drained) || m.mutation.Some? then m
      else
        var end := EndAll(m.store.records, m.store.revision);
        m.(store := m.store.(records := end.records, revision := end.revision), mutation := Some(t),
           threads := m.threads[t := Flushing(end.events)])
    case Flush(_) =>
      if idle || !m.threads[t].Flushing? then m
      else if |m.threads[t].events| == 0 then Left(m, t).(mutation := None)
      else m.(published := m.published + [m.threads[t].events[0]],
              threads := m.threads[t := Flushing(m.threads[t].events[1..])])
  }

  function Run(m: Machine, steps: seq<Step>, valid: LabelCheck): Machine
    decreases |steps|
  {
    if |steps| == 0 then m else Run(Next(m, steps[0], valid), steps[1..], valid)
  }

  // ----- The invariant -----

  predicate HoldsBackend(place: Place) {
    place.CallingSend? || place.CallingOp? || place.Draining?
  }

  predicate HoldsMutation(place: Place) {
    place.Publishing? || place.Enqueuing? || place.Flushing?
  }

  ghost predicate LocksOk(m: Machine) {
    && (forall t :: t in m.threads ==> (HoldsBackend(m.threads[t]) <==> m.backend == Some(t)))
    && (forall t :: t in m.threads ==> (HoldsMutation(m.threads[t]) <==> m.mutation == Some(t)))
    && (m.backend.Some? ==> m.backend.value in m.threads) && (m.mutation.Some? ==> m.mutation.value in m.threads)
    && (forall t :: t in m.threads && (m.threads[t].Publishing? || m.threads[t].Enqueuing?) ==> m.store.open)
    && m.store.pending == if m.backend.Some? && m.threads[m.backend.value].CallingSend? then 1 else 0
  }

  /** The events whose change is made but which are not published yet. */
  function Owed(m: Machine): seq<Payload> {
    if m.mutation.None? || m.mutation.value !in m.threads then []
    else
      match m.threads[m.mutation.value]
      case Publishing(event) => [event]
      case Enqueuing(event) => [event]
      case Flushing(events) => events
      case _ => []
  }

  /** Published and owed events are numbered by revision without a gap, and tell the records. */
  ghost predicate LogOk(m: Machine) {
    var log := m.published + Owed(m);
    Numbered(log, 1) && |log| == m.store.revision - 1 && Mirrors(Fold(map[], log), m.store.records)
  }

  ghost predicate Inv(m: Machine) {
    LocksOk(m) && StoreOk(m.store) && LogOk(m) && m.refused == 0
  }

  /** A mutating section by a thread that holds no lock, while the mutation lock is free. */
  lemma MutatedOk(m: Machine, t: Thread, sec: Section)
    requires StoreOk(m.store) && LogOk(m) && m.mutation.None? && m.refused == 0 && SectionOk(m.store, sec)
    ensures StoreOk(Mutated(m, t, sec).store) && LogOk(Mutated(m, t, sec)) && Mutated(m, t, sec).refused == 0
  {
    hide StoreOk;
    assert m.published + [] == m.published;
    if sec.event.Some? {
      var log, p := m.published + [sec.event.value], sec.event.value;
      assert log[..|log| - 1] == m.published && log[|log| - 1] == p;
      assert Fold(map[], log) == Applied(Fold(map[], m.published), p);
    }
  }

  lemma MutatedLocks(m: Machine, t: Thread, sec: Section)
    requires LocksOk(m) && m.mutation.None? && t !in m.threads && sec.store.open == m.store.open
    requires sec.store.pending == m.store.pending
    requires sec.event.Some? ==> m.store.open
    ensures LocksOk(Mutated(m, t, sec))
  {
  }

  /** A change is only made while the store is open. */
  lemma OpenToChange(s: Store, result: Started, op: Operation, id: seq<u8>, total: u64, peer: seq<u8>, u: Update,
                     transferred: u64, valid: LabelCheck)
    ensures s.pending > 0 && FinishSend(s, result, valid).event.Some? ==> s.open
    ensures Finish(s, op).event.Some? ==> s.open
    ensures Offer(s, id, total, peer, valid).event.Some? ==> s.open
    ensures Apply(s, id, u, transferred).event.Some? ==> s.open
    ensures Finish(s, op).store.pending == s.pending && Offer(s, id, total, peer, valid).store.pending == s.pending
    ensures Apply(s, id, u, transferred).store.pending == s.pending
    ensures s.pending > 0 ==> FinishSend(s, result, valid).store.pending == s.pending - 1
  {
    hide Find, Fits;
  }

  lemma EndSendInv(m: Machine, t: Thread, result: Started, valid: LabelCheck)
    requires Inv(m) && At(m, t, CallingSend) && m.mutation.None? && m.store.pending > 0
    ensures Inv(Next(m, EndSend(t, result), valid))
  {
    hide FinishSend;
    var left, sec := Left(m, t).(backend := None), FinishSend(m.store, result, valid);
    FinishSendOk(m.store, result, valid);
    OpenToChange(m.store, result, Accept([]), [], 0, [], Update(CoreCreated, NoError, false), 0, valid);
    assert Owed(left) == Owed(m);
    MutatedOk(left, t, sec);
    hide LogOk, StoreOk, SectionOk;
  }

  lemma EndOpInv(m: Machine, t: Thread, ok: bool, valid: LabelCheck)
    requires Inv(m) && t in m.threads && m.threads[t].CallingOp? && (ok ==> m.mutation.None?)
    ensures Inv(Next(m, EndOp(t, ok), valid))
  {
    hide Finish;
    var left := Left(m, t).(backend := None);
    assert Owed(left) == Owed(m);
    assert LocksOk(left) && LogOk(left);
    if ok {
      var sec := Finish(m.store, m.threads[t].op);
      FinishOk(m.store, m.threads[t].op);
      OpenToChange(m.store, Started(false, [], 0, []), m.threads[t].op, [], 0, [], Update(CoreCreated, NoError, false),
                   0, valid);
      hide LocksOk, LogOk, StoreOk;
      MutatedOk(left, t, sec);
      MutatedLocks(left, t, sec);
    }
  }

  lemma MutateInv(m: Machine, t: Thread, sec: Section)
    requires Inv(m) && t !in m.threads && m.mutation.None? && SectionOk(m.store, sec)
    requires sec.store.pending == m.store.pending && (sec.event.Some? ==> m.store.open)
    ensures Inv(Mutated(m, t, sec))
  {
    hide LocksOk, LogOk, StoreOk;
    MutatedOk(m, t, sec);
    MutatedLocks(m, t, sec);
  }

  lemma PublishInv(m: Machine, step: Step, valid: LabelCheck)
    requires Inv(m) && (step.CheckOpen? || step.Publish?)
    ensures Inv(Next(m, step, valid))
  {
    hide StoreOk, Numbered, Mirrors;
    var after := Next(m, step, valid);
    if after != m && step.Publish? {
      assert after.published + [] == m.published + Owed(m);
    }
  }

  lemma FlushInv(m: Machine, t: Thread, valid: LabelCheck)
    requires Inv(m)
    ensures Inv(Next(m, Flush(t), valid))
  {
    hide StoreOk, Numbered, Mirrors;
    if t in m.threads && m.threads[t].Flushing? {
      var events := m.threads[t].events;
      if |events| > 0 {
        assert m.published + [events[0]] + events[1..] == m.published + events;
      }
    }
  }

  /** The log with the events of the end, which are owed at first. */
  lemma EndLog(published: seq<Payload>, s: Store)
    requires StoreOk(s) && Numbered(published, 1) && |published| == s.revision - 1
    requires Mirrors(Fold(map[], published), s.records)
    ensures var end := EndAll(s.records, s.revision); var log := published + end.events;
            && StoreOk(s.(records := end.records, revision := end.revision))
            && Numbered(log, 1) && |log| == end.revision - 1 && Mirrors(Fold(map[], log), end.records)
  {
    hide EndAll, Mirrors, UniqueIds, Fold;
    TransferRuns.EndRecords(s.records, s.revision);
    EndsMirror(Fold(map[], published), s.records, s.revision);
    EndRevisions(s.records, s.revision);
    FoldConcat(map[], published, EndAll(s.records, s.revision).events);
  }

  lemma EndRecordsInv(m: Machine, t: Thread, valid: LabelCheck)
    requires Inv(m) && At(m, t, Drained) && m.mutation.None?
    ensures Inv(Next(m, EndRecords(t), valid))
  {
    hide EndAll, Mirrors, StoreOk, Fold, Numbered;
    assert m.published + [] == m.published;
    EndLog(m.published, m.store);
  }

  lemma {:induction false} FoldConcat(m: Table, a: seq<Payload>, b: seq<Payload>)
    ensures Fold(m, a + b) == Fold(Fold(m, a), b)
  {
    if |b| == 0 {
      assert a + b == a;
    } else {
      assert (a + b)[..|a + b| - 1] == a + b[..|b| - 1];
      FoldConcat(m, a, b[..|b| - 1]);
    }
  }

  lemma BeginInv(m: Machine, step: Step, valid: LabelCheck)
    requires Inv(m) && (step.BeginSend? || step.BeginOp? || step.BeginShutdown? || step.BackendDown?)
    ensures Inv(Next(m, step, valid))
  {
    hide Mirrors, Numbered, UniqueIds, Admitted;
    var after := Next(m, step, valid);
    assert Owed(after) == Owed(m);
  }

  /** Every step of every thread keeps the invariant. */
  lemma NextInv(m: Machine, step: Step, valid: LabelCheck)
    requires Inv(m)
    ensures Inv(Next(m, step, valid))
  {
    var t := step.t;
    match step
    case EndSend(_, result) =>
      if At(m, t, CallingSend) && m.mutation.None? && m.store.pending > 0 {
        EndSendInv(m, t, result, valid);
      }
    case EndOp(_, ok) =>
      if t in m.threads && m.threads[t].CallingOp? && (ok ==> m.mutation.None?) {
        EndOpInv(m, t, ok, valid);
      }
    case IncomingOffer(_, id, total, peer) =>
      if t !in m.threads && m.mutation.None? {
        OfferOk(m.store, id, total, peer, valid);
        OpenToChange(m.store, Started(false, [], 0, []), Accept([]), id, total, peer,
                     Update(CoreCreated, NoError, false), 0, valid);
        MutateInv(m, t, Offer(m.store, id, total, peer, valid));
      }
    case ApplyUpdate(_, id, update, transferred) =>
      if t !in m.threads && m.mutation.None? {
        ApplyOk(m.store, id, update, transferred);
        OpenToChange(m.store, Started(false, [], 0, []), Accept([]), id, 0, [], update, transferred, valid);
        MutateInv(m, t, Apply(m.store, id, update, transferred));
      }
    case CheckOpen(_) => PublishInv(m, step, valid);
    case Publish(_) => PublishInv(m, step, valid);
    case Flush(_) => FlushInv(m, t, valid);
    case EndRecords(_) =>
      if At(m, t, Drained) && m.mutation.None? {
        EndRecordsInv(m, t, valid);
      }
    case _ => BeginInv(m, step, valid);
  }

  lemma {:induction false} RunInv(m: Machine, steps: seq<Step>, valid: LabelCheck)
    requires Inv(m)
    ensures Inv(Run(m, steps, valid))
    decreases |steps|
  {
    hide Next, Inv;
    if |steps| > 0 {
      NextInv(m, steps[0], valid);
      RunInv(Next(m, steps[0], valid), steps[1..], valid);
    }
  }

  lemma StartInv()
    ensures Inv(START)
  {
    assert Fold(map[], []) == map[];
  }

  /** In every interleaving a send that waits for the backend holds the one pending start and has room for its record:
      the capacity test of its second section never refuses. */
  lemma ReservationHolds(steps: seq<Step>, t: Thread, valid: LabelCheck)
    requires At(Run(START, steps, valid), t, CallingSend)
    ensures var s := Run(START, steps, valid).store; s.pending == 1 && |s.records| < MAX_RECORDS
  {
    hide Run, LogOk;
    StartInv();
    RunInv(START, steps, valid);
  }

  /** The store linearises: in every interleaving the published events carry the revisions 2, 3, … without a gap,
      none is refused after its change was made, and with those still owed they fold to exactly the records; records
      and pending starts never exceed the limit. */
  lemma StoreLinearises(steps: seq<Step>, valid: LabelCheck)
    ensures var m := Run(START, steps, valid);
            && (forall k :: 0 <= k < |m.published| ==> m.published[k].revision == k + 2)
            && m.refused == 0 && |m.published| + |Owed(m)| == m.store.revision - 1
            && Mirrors(Fold(map[], m.published + Owed(m)), m.store.records)
            && |m.store.records| + m.store.pending <= MAX_RECORDS
  {
    StartInv();
    RunInv(START, steps, valid);
    hide Run, Mirrors, Fold, LocksOk, Owed;
    var m := Run(START, steps, valid);
    var log := m.published + Owed(m);
    forall k | 0 <= k < |m.published| ensures m.published[k].revision == k + 2 {
      assert log[k] == m.published[k];
    }
  }

  // ----- Records that have ended, and snapshots -----

  /** The revision never falls, rises with every change of the records, and ended records stay. */
  ghost predicate Moves(before: Store, after: Store) {
    && before.revision <= after.revision && (before.revision == after.revision ==> before.records == after.records)
    && Frozen(before.records, after.records)
  }

  lemma SectionMoves(s: Store, sec: Section)
    requires SectionOk(s, sec)
    ensures Moves(s, sec.store)
  {
  }

  lemma NextMoves(m: Machine, step: Step, valid: LabelCheck)
    requires Inv(m)
    ensures Moves(m.store, Next(m, step, valid).store)
  {
    hide LocksOk, LogOk, FinishSend, Finish, Offer, Apply, Reserve, Admitted;
    match step
    case BeginSend(_) => ReserveMoves(m.store);
    case EndSend(t, result) =>
      if m.store.pending > 0 {
        FinishSendOk(m.store, result, valid);
        SectionMoves(m.store, FinishSend(m.store, result, valid));
      }
    case EndOp(t, ok) =>
      if t in m.threads && m.threads[t].CallingOp? {
        FinishOk(m.store, m.threads[t].op);
        SectionMoves(m.store, Finish(m.store, m.threads[t].op));
      }
    case IncomingOffer(_, id, total, peer) =>
      OfferOk(m.store, id, total, peer, valid);
      SectionMoves(m.store, Offer(m.store, id, total, peer, valid));
    case ApplyUpdate(_, id, update, transferred) =>
      ApplyOk(m.store, id, update, transferred);
      SectionMoves(m.store, Apply(m.store, id, update, transferred));
    case EndRecords(_) =>
      TransferRuns.EndRecords(m.store.records, m.store.revision);
      EndKeeps(m.store.records, m.store.revision);
      hide EndAll;
    case _ =>
  }

  lemma ReserveMoves(s: Store)
    ensures Moves(s, Reserve(s).0)
  {
  }

  /** Without events the end changes nothing. */
  lemma {:induction false} EndKeeps(records: seq<Record>, revision: nat)
    ensures EndAll(records, revision).events == [] ==> EndAll(records, revision).records == records
  {
    if |records| > 0 {
      EndKeeps(records[..|records| - 1], revision);
      assert records == records[..|records| - 1] + [records[|records| - 1]];
    }
  }

  lemma {:induction false} RunMoves(m: Machine, steps: seq<Step>, valid: LabelCheck)
    requires Inv(m)
    ensures Moves(m.store, Run(m, steps, valid).store)
    decreases |steps|
  {
    hide Next, Inv;
    if |steps| > 0 {
      var n := Next(m, steps[0], valid);
      NextInv(m, steps[0], valid);
      NextMoves(m, steps[0], valid);
      RunMoves(n, steps[1..], valid);
    }
  }

  /** A record that has ended is never changed or removed again, whatever happens. */
  lemma EndedRecordsFrozen(before: seq<Step>, after: seq<Step>, valid: LabelCheck, r: Record)
    requires r in Run(START, before, valid).store.records && Terminal(r.state)
    ensures r in Run(Run(START, before, valid), after, valid).store.records
  {
    StartInv();
    RunInv(START, before, valid);
    hide Run;
    RunMoves(Run(START, before, valid), after, valid);
  }

  /** The pages of a list of records, from a given one on. */
  function Pages(records: seq<Record>, offset: nat): seq<Record>
    requires offset <= |records|
    decreases |records| - offset
  {
    var end := Min(|records|, offset + PAGE_CAPACITY);
    if offset == |records| then [] else records[offset..end] + Pages(records, end)
  }

  lemma {:induction false} PagesAreAll(records: seq<Record>, offset: nat)
    requires offset <= |records|
    ensures Pages(records, offset) == records[offset..]
    decreases |records| - offset
  {
    if offset < |records| {
      PagesAreAll(records, Min(|records|, offset + PAGE_CAPACITY));
    }
  }

  /** Whenever it is read, a page that carries a revision is that part of the records of the revision; so the pages of
      one revision, read at any times, together are exactly its records. */
  lemma PageOfRevision(steps: seq<Step>, more: seq<Step>, valid: LabelCheck, offset: nat)
    ensures var at, later := Run(START, steps, valid).store, Run(Run(START, steps, valid), more, valid).store;
            && (Snapshot(later, at.revision, offset).PageRead? ==>
                  && offset <= |at.records|
                  && Snapshot(later, at.revision, offset).page ==
                       Page(at.revision, offset, |at.records|,
                            at.records[offset..Min(|at.records|, offset + PAGE_CAPACITY)]))
            && Pages(at.records, 0) == at.records
  {
    StartInv();
    RunInv(START, steps, valid);
    var m := Run(START, steps, valid);
    assert m.store.revision >= 1;
    hide Run, Pages;
    RunMoves(m, more, valid);
    PagesAreAll(m.store.records, 0);
    assert m.store.records[0..] == m.store.records;
  }
}
