/** What holds over every run of the discovery cache: accounting, the event stream, and
    sequence numbers that never fall. */
module DiscoveryCacheRuns {
  import opened Common
  import opened BoundedSelection
  import opened DiscoveryTypes
  import opened DiscoveryEntries
  import opened DiscoveryWire
  import opened DiscoveryCache
  import opened DiscoveryCacheInv

  /** The state after a run of commands and every event on the way. */
  function Run(commands: seq<Command>, valid: LabelValidator): Outcome {
    if |commands| == 0 then Outcome(Initial(), [])
    else
      var before := Run(commands[..|commands| - 1], valid);
      var next := Step(before.cache, commands[|commands| - 1], valid);
      Outcome(next.cache, before.events + next.events)
  }

  /** Every reachable state satisfies the accounting invariant. */
  lemma {:induction false} RunInv(commands: seq<Command>, valid: LabelValidator)
    ensures Inv(Run(commands, valid).cache)
  {
    if |commands| > 0 {
      RunInv(commands[..|commands| - 1], valid);
      StepInv(Run(commands[..|commands| - 1], valid).cache, commands[|commands| - 1], valid);
    }
  }

  /** After `Advance(now)` on a listening cache, every candidate has time left. */
  lemma AdvanceExpires(c: Cache, now: u64, valid: LabelValidator)
    requires Listening(c, now)
    ensures forall e :: e in Step(c, Advance(now), valid).cache.entries && e.candidate ==> e.value.deadline > now
  {
    var buried := Swept(BuryDue(now), c.entries);
    SweptFrom(BuryDue(now), c.entries);
    SweptFrom(EraseTombstones(now), buried);
    forall e | e in Advanced(c, now).cache.entries && e.candidate ensures e.value.deadline > now {
      assert Survives(EraseTombstones(now), buried, e);
      assert Survives(BuryDue(now), c.entries, e);
    }
  }

  // ----- One message -----

  predicate OutOfOrder(d: Disposition) {
    d.DroppedStale? || d.DroppedDuplicate? || d.DroppedSequenceConflict?
  }

  /** The entries of a listening cache once `Receive` has erased the expired tombstones. */
  function Current(c: Cache, now: u64): seq<Entry> {
    if Listening(c, now) then Swept(EraseTombstones(now), c.entries) else c.entries
  }

  /** A datagram is dropped before the entries are looked at, or it is a message for them. */
  lemma ReceivedCases(c: Cache, m: Metadata, payload: seq<u8>, now: u64, valid: LabelValidator)
    ensures var (c', effect) := Received(c, m, payload, now, valid);
            && c'.entries == effect.entries
            && (|| (effect.entries == Current(c, now) && effect.events == [] && !Accepted(effect.disposition)
                    && !OutOfOrder(effect.disposition))
                || (Parse(payload, valid).Ok? &&
                    var a := Parse(payload, valid).value;
                    effect == Message(Current(c, now), Key(m.observer, m.source, a.token), a, now)))
  {
    hide Parse, Message, Admit, MetadataOk, IsSelf, Swept;
  }

  /** `after` is `before` with `e` put at position `i`, which may be its end. */
  predicate PutAt(before: seq<Entry>, after: seq<Entry>, i: nat, e: Entry)
    requires i <= |before|
  {
    after == if i == |before| then before + [e] else before[i := e]
  }

  /** A message changes nothing, or puts one entry carrying its sequence number under its key. */
  lemma MessageShape(entries: seq<Entry>, key: Key, a: Advertisement, now: u64)
    ensures var r := Message(entries, key, a, now); var i := Find(entries, key);
            if !Accepted(r.disposition) then r.entries == entries && r.events == []
            else
              && |r.entries| > i && PutAt(entries, r.entries, i, r.entries[i])
              && r.entries[i].value.key == key && r.entries[i].value.highest == a.sequence
              && r.entries[i].candidate == (a.kind == Announce)
              && (i < |entries| ==> entries[i].value.highest < a.sequence)
  {
    hide Find, CandidateCapacity, EntryCapacity, Total;
  }

  lemma PutLookup(before: seq<Entry>, key: Key, e: Entry, other: Key)
    requires UniqueKeys(before) && e.value.key == key
    ensures var i := Find(before, key); forall after :: PutAt(before, after, i, e) ==>
              && UniqueKeys(after)
              && Lookup(after, other) == if other == key then Some(e) else Lookup(before, other)
  {
    var i := Find(before, key);
    LookupAppend(before, e, other);
    if i < |before| {
      LookupUpdate(before, i, e, other);
    }
  }

  /** What a message does to the entry under each key. */
  lemma MessageLookup(entries: seq<Entry>, key: Key, a: Advertisement, now: u64, other: Key)
    requires UniqueKeys(entries)
    ensures var r := Message(entries, key, a, now);
            && UniqueKeys(r.entries)
            && (other != key ==> Lookup(r.entries, other) == Lookup(entries, other))
            && (!Accepted(r.disposition) ==> r.entries == entries && r.events == [])
            && (Accepted(r.disposition) ==>
                  && Lookup(r.entries, key).Some? && Lookup(r.entries, key).value.value.highest == a.sequence
                  && Lookup(r.entries, key).value.candidate == (a.kind == Announce)
                  && (Lookup(entries, key).Some? ==> Lookup(entries, key).value.value.highest < a.sequence))
  {
    var r := Message(entries, key, a, now);
    MessageShape(entries, key, a, now);
    hide Message;
    if Accepted(r.disposition) {
      var e := r.entries[Find(entries, key)];
      PutLookup(entries, key, e, other);
      PutLookup(entries, key, e, key);
    }
  }

  /** The events of one message, as a change of what is visible under its key. */
  predicate Explains(events: seq<Event>, key: Key, before: Option<(u16, seq<u8>)>, after: Option<(u16, seq<u8>)>) {
    if |events| == 0 then after == before
    else
      && |events| == 1 && events[0].value.key == key
      && (if events[0].Expired? then before.Some? && after.None?
          else
            && (events[0].Updated? <==> before.Some?)
            && after == Some((events[0].value.port, events[0].value.name)))
  }

  function At(entries: seq<Entry>, i: nat): Option<Entry> {
    if i < |entries| then Some(entries[i]) else None
  }

  /** The events of a message, by the entry at its place before and after. */
  lemma MessageSays(entries: seq<Entry>, key: Key, a: Advertisement, now: u64)
    ensures var r := Message(entries, key, a, now); var i := Find(entries, key);
            && Explains(r.events, key, Visible(At(entries, i)), Visible(At(r.entries, i)))
            && (|r.events| > 0 && r.events[0].Appeared? ==> Total(AllCandidates, entries) < MAX_CANDIDATES)
  {
    hide Find, EntryCapacity, Total;
  }

  lemma MessageEvents(entries: seq<Entry>, key: Key, a: Advertisement, now: u64)
    requires UniqueKeys(entries)
    ensures var r := Message(entries, key, a, now);
            && Explains(r.events, key, Visible(Lookup(entries, key)), Visible(Lookup(r.entries, key)))
            && (|r.events| > 0 && r.events[0].Appeared? ==> Total(AllCandidates, entries) < MAX_CANDIDATES)
  {
    assert Lookup(entries, key) == At(entries, Find(entries, key));
    hide Message, UniqueKeys, Explains, Visible, Find, Lookup, Total;
    var r := Message(entries, key, a, now);
    MessageSays(entries, key, a, now);
    MessageShape(entries, key, a, now);
    if Accepted(r.disposition) {
      PutLookup(entries, key, r.entries[Find(entries, key)], key);
    }
  }

  // ----- The event stream -----

  lemma MessageMirrors(m: Table, entries: seq<Entry>, key: Key, a: Advertisement, now: u64)
    requires UniqueKeys(entries) && Mirrors(m, entries)
    ensures var r := Message(entries, key, a, now); Mirrors(Fold(m, r.events), r.entries)
  {
    var r := Message(entries, key, a, now);
    MessageEvents(entries, key, a, now);
    FoldOne(m, r.events);
    forall other: Key ensures Shows(Fold(m, r.events), other) == Visible(Lookup(r.entries, other)) {
      MessageLookup(entries, key, a, now, other);
      hide Message, Fold, Lookup;
      assert Shows(m, other) == Visible(Lookup(entries, other));
      assert Shows(m, key) == Visible(Lookup(entries, key));
    }
  }

  lemma FoldOne(m: Table, events: seq<Event>)
    ensures |events| == 0 ==> Fold(m, events) == m
    ensures |events| == 1 ==> Fold(m, events) == Apply(m, events[0])
  {
    assert |events| == 1 ==> Fold(m, events[..0]) == m;
  }

  /** Erasing tombstones says nothing. */
  lemma {:induction false} TombstonesSilent(entries: seq<Entry>, now: u64)
    ensures Expiries(EraseTombstones(now), entries) == []
  {
    if |entries| > 0 {
      TombstonesSilent(entries[..|entries| - 1], now);
    }
  }

  lemma AtTimeMirrors(m: Table, c: Cache, now: u64)
    requires UniqueKeys(c.entries) && Mirrors(m, c.entries)
    ensures UniqueKeys(AtTime(c, now).entries) && Mirrors(m, AtTime(c, now).entries)
  {
    TombstonesSilent(c.entries, now);
    SweepMirrors(m, EraseTombstones(now), c.entries);
    SweptUnique(EraseTombstones(now), c.entries);
  }

  lemma ReceiveMirrors(m: Table, c: Cache, d: Metadata, payload: seq<u8>, now: u64, valid: LabelValidator)
    requires UniqueKeys(c.entries) && Mirrors(m, c.entries)
    ensures var (c', effect) := Received(c, d, payload, now, valid); Mirrors(Fold(m, effect.events), c'.entries)
  {
    AtTimeMirrors(m, c, now);
    ReceivedCases(c, d, payload, now, valid);
    FoldOne(m, []);
    hide Received, Parse, Message, Mirrors, UniqueKeys;
    if Parse(payload, valid).Ok? {
      var a := Parse(payload, valid).value;
      MessageMirrors(m, Current(c, now), Key(d.observer, d.source, a.token), a, now);
    }
  }

  lemma AdvanceMirrors(m: Table, c: Cache, now: u64)
    requires UniqueKeys(c.entries) && Mirrors(m, c.entries)
    ensures Mirrors(Fold(m, Advanced(c, now).events), Advanced(c, now).cache.entries)
  {
    SweepMirrors(m, BuryDue(now), c.entries);
    SweptUnique(BuryDue(now), c.entries);
    var buried := c.(entries := Swept(BuryDue(now), c.entries));
    AtTimeMirrors(Fold(m, Advanced(c, now).events), buried, now);
  }

  lemma SnapshotMirrors(m: Table, c: Cache, scopes: seq<Scope>, now: u64)
    requires UniqueKeys(c.entries) && Mirrors(m, c.entries)
    ensures Mirrors(Fold(m, Snapshotted(c, scopes, now).events), Snapshotted(c, scopes, now).cache.entries)
  {
    AtTimeMirrors(m, c, now);
    SweepMirrors(m, DropAbsent(Canonical(scopes)), AtTime(c, now).entries);
  }

  lemma WakeMirrors(m: Table, c: Cache, scopes: seq<Scope>, now: u64)
    requires UniqueKeys(c.entries) && Mirrors(m, c.entries)
    ensures Mirrors(Fold(m, Woken(c, scopes, now).events), Woken(c, scopes, now).cache.entries)
  {
    var entries, sweep := AtTime(c, now).entries, DropAbsent(Canonical(scopes));
    var buried := Swept(BuryAll(now), entries);
    AtTimeMirrors(m, c, now);
    SweepMirrors(m, BuryAll(now), entries);
    SweptUnique(BuryAll(now), entries);
    SweepMirrors(Fold(m, Expiries(BuryAll(now), entries)), sweep, buried);
    FoldConcat(m, Expiries(BuryAll(now), entries), Expiries(sweep, buried));
  }

  lemma StepMirrors(m: Table, c: Cache, command: Command, valid: LabelValidator)
    requires Inv(c) && Mirrors(m, c.entries) && !command.Stop?
    ensures Mirrors(Fold(m, Step(c, command, valid).events), Step(c, command, valid).cache.entries)
  {
    assert UniqueKeys(c.entries);
    hide Inv, Mirrors, Received, Advanced, Snapshotted, Woken;
    FoldOne(m, []);
    match command
    case Receive(d, payload, now) => ReceiveMirrors(m, c, d, payload, now, valid);
    case Advance(now) => AdvanceMirrors(m, c, now);
    case ApplySnapshot(scopes, now) => SnapshotMirrors(m, c, scopes, now);
    case Wake(scopes, now) => WakeMirrors(m, c, scopes, now);
    case _ =>
  }

  ghost predicate NeverStopped(commands: seq<Command>) {
    forall i :: 0 <= i < |commands| ==> !commands[i].Stop?
  }

  /** The event stream refines the cache: over every run without `Stop`, folding the events over an empty table
      gives exactly the current candidates with their ports and labels. */
  lemma {:induction false} EventsRefineCache(commands: seq<Command>, valid: LabelValidator)
    requires NeverStopped(commands)
    ensures Mirrors(Fold(map[], Run(commands, valid).events), Run(commands, valid).cache.entries)
  {
    if |commands| > 0 {
      var front, last := commands[..|commands| - 1], commands[|commands| - 1];
      EventsRefineCache(front, valid);
      RunInv(front, valid);
      var before := Run(front, valid);
      StepMirrors(Fold(map[], before.events), before.cache, last, valid);
      FoldConcat(map[], before.events, Step(before.cache, last, valid).events);
    }
  }

  // ----- Sequence numbers -----

  /** The sequence number a command carries for `key`, if it is a readable datagram for it. */
  function Speaks(command: Command, key: Key, valid: LabelValidator): Option<u64> {
    if !command.Receive? || Parse(command.payload, valid).Err? then None
    else
      var a := Parse(command.payload, valid).value;
      if Key(command.metadata.observer, command.metadata.source, a.token) == key then Some(a.sequence) else None
  }

  /** When a command may take away the entry `e`: it stops the cache, removes its scope, or finds its tombstone
      expired. A candidate whose retention would end beyond the clock's range is buried and erased at once. */
  predicate MayVanish(command: Command, e: Entry) {
    match command
    case Stop => true
    case Receive(_, _, now) => !e.candidate && now >= e.retainUntil
    case Advance(now) => if e.candidate then now >= e.value.deadline && now == U64_MAX else now >= e.retainUntil
    case ApplySnapshot(scopes, now) => e.value.key.observer !in Canonical(scopes)
      || (!e.candidate && now >= e.retainUntil)
    case Wake(scopes, now) => e.value.key.observer !in Canonical(scopes) || (!e.candidate && now >= e.retainUntil)
    case _ => false
  }

  /** The tombstone `e` is erased before the command is looked at. */
  predicate Lapsed(command: Command, e: Entry) {
    command.Receive? && !e.candidate && command.now >= e.retainUntil
  }

  function DispositionOf(c: Cache, command: Command, valid: LabelValidator): Disposition
    requires command.Receive?
  {
    Received(c, command.metadata, command.payload, command.now, valid).1.disposition
  }

  /** The message for `key` that a command gets accepted, if any. */
  function Heard(c: Cache, command: Command, key: Key, valid: LabelValidator): Option<Advertisement> {
    if Speaks(command, key, valid).Some? && Accepted(DispositionOf(c, command, valid)) then
      Some(Parse(command.payload, valid).value)
    else None
  }

  /** Time, or waking, turns the candidate `e` into a tombstone with the same sequence. */
  predicate Buries(command: Command, e: Entry, r: Entry) {
    && e.candidate && (command.Wake? || (command.Advance? && command.now >= e.value.deadline))
    && r == Bury(e, command.now)
  }

  /** What a step may do to the entry under a key. A message that is accepted raises the sequence strictly, unless the
      tombstone had expired, and leaves a candidate exactly when it is an announcement; otherwise the entry stays as it
      is, is buried, or vanishes. */
  predicate KeepsSequence(before: Option<Entry>, after: Option<Entry>, command: Command, heard: Option<Advertisement>) {
    if heard.Some? then
      && after.Some? && after.value.value.highest == heard.value.sequence
      && after.value.candidate == (heard.value.kind == Announce)
      && (before.Some? ==> before.value.value.highest < heard.value.sequence || Lapsed(command, before.value))
    else
      && (before.Some? && after.None? ==> MayVanish(command, before.value))
      && (after.Some? ==> before.Some? && (after == before || Buries(command, before.value, after.value)))
  }

  lemma ReceiveSequence(c: Cache, m: Metadata, payload: seq<u8>, now: u64, valid: LabelValidator, key: Key)
    requires Inv(c)
    ensures var command := Receive(m, payload, now);
            KeepsSequence(Lookup(c.entries, key), Lookup(Received(c, m, payload, now, valid).0.entries, key), command,
                          Heard(c, command, key, valid))
  {
    hide Received, Parse, Message, Lookup, UniqueKeys, Swept;
    LookupSwept(EraseTombstones(now), c.entries, key);
    SweptUnique(EraseTombstones(now), c.entries);
    ReceivedCases(c, m, payload, now, valid);
    if Parse(payload, valid).Ok? {
      var a := Parse(payload, valid).value;
      MessageLookup(Current(c, now), Key(m.observer, m.source, a.token), a, now, key);
    }
    CurrentLookup(c, now, key);
  }

  /** What `Receive` finds under a key: the entry, unless its tombstone has expired. */
  lemma CurrentLookup(c: Cache, now: u64, key: Key)
    requires UniqueKeys(c.entries)
    ensures Lookup(Current(c, now), key) == Lookup(c.entries, key)
            || (Lookup(Current(c, now), key).None? && Lookup(c.entries, key).Some?
                && !Lookup(c.entries, key).value.candidate && now >= Lookup(c.entries, key).value.retainUntil)
  {
    LookupSwept(EraseTombstones(now), c.entries, key);
  }

  lemma AdvanceSequence(c: Cache, now: u64, key: Key)
    requires Inv(c)
    ensures KeepsSequence(Lookup(c.entries, key), Lookup(Advanced(c, now).cache.entries, key), Advance(now), None)
  {
    hide Lookup, Swept, Expiries, UniqueKeys;
    LookupSwept(BuryDue(now), c.entries, key);
    SweptUnique(BuryDue(now), c.entries);
    LookupSwept(EraseTombstones(now), Swept(BuryDue(now), c.entries), key);
  }

  lemma DroppedLookup(entries: seq<Entry>, scopes: seq<Scope>, key: Key)
    requires UniqueKeys(entries)
    ensures Lookup(Swept(DropAbsent(Canonical(scopes)), entries), key) ==
            if key.observer in Canonical(scopes) then Lookup(entries, key) else None
  {
    CanonicalSelects(scopes);
    ScopeOrder();
    BinarySearchFinds(Canonical(scopes), key.observer, ScopeLess, SameScope);
    LookupSwept(DropAbsent(Canonical(scopes)), entries, key);
  }

  lemma SnapshotCases(before: Option<Entry>, scopes: seq<Scope>, now: u64)
    ensures var kept := Then(EraseTombstones(now), before);
            && (before.Some? && before.value.value.key.observer in Canonical(scopes) ==>
                  KeepsSequence(before, kept, ApplySnapshot(scopes, now), None))
            && (before.Some? && before.value.value.key.observer !in Canonical(scopes) ==>
                  KeepsSequence(before, None, ApplySnapshot(scopes, now), None))
            && KeepsSequence(None, None, ApplySnapshot(scopes, now), None)
  {
    hide Canonical;
  }

  lemma SnapshotSequence(c: Cache, scopes: seq<Scope>, now: u64, key: Key)
    requires UniqueKeys(c.entries)
    ensures KeepsSequence(Lookup(c.entries, key), Lookup(Snapshotted(c, scopes, now).cache.entries, key),
                          ApplySnapshot(scopes, now), None)
  {
    var entries := Swept(EraseTombstones(now), c.entries);
    assert Snapshotted(c, scopes, now).cache.entries == Swept(DropAbsent(Canonical(scopes)), entries);
    hide Snapshotted, Canonical, Lookup, Swept, UniqueKeys, KeepsSequence, After;
    LookupSwept(EraseTombstones(now), c.entries, key);
    SweptUnique(EraseTombstones(now), c.entries);
    DroppedLookup(entries, scopes, key);
    SnapshotCases(Lookup(c.entries, key), scopes, now);
  }

  lemma WakeCases(before: Option<Entry>, scopes: seq<Scope>, now: u64)
    ensures var buried := Then(BuryAll(now), Then(EraseTombstones(now), before));
            && (before.Some? && before.value.value.key.observer in Canonical(scopes) ==>
                  KeepsSequence(before, buried, Wake(scopes, now), None))
            && (before.Some? && before.value.value.key.observer !in Canonical(scopes) ==>
                  KeepsSequence(before, None, Wake(scopes, now), None))
            && KeepsSequence(None, None, Wake(scopes, now), None)
  {
    hide Canonical;
  }

  lemma WakeSequence(c: Cache, scopes: seq<Scope>, now: u64, key: Key)
    requires UniqueKeys(c.entries)
    ensures KeepsSequence(Lookup(c.entries, key), Lookup(Woken(c, scopes, now).cache.entries, key),
                          Wake(scopes, now), None)
  {
    var entries := Swept(EraseTombstones(now), c.entries);
    var buried := Swept(BuryAll(now), entries);
    assert Woken(c, scopes, now).cache.entries == Swept(DropAbsent(Canonical(scopes)), buried);
    hide Woken, Canonical, Lookup, Swept, UniqueKeys, KeepsSequence, After;
    LookupSwept(EraseTombstones(now), c.entries, key);
    SweptUnique(EraseTombstones(now), c.entries);
    LookupSwept(BuryAll(now), entries, key);
    SweptUnique(BuryAll(now), entries);
    DroppedLookup(buried, scopes, key);
    WakeCases(Lookup(c.entries, key), scopes, now);
  }

  lemma IdleSequence(before: Option<Entry>, command: Command)
    ensures KeepsSequence(before, before, command, None)
    ensures command.Stop? ==> KeepsSequence(before, None, command, None)
  {
  }

  lemma EntriesUnique(c: Cache, key: Key)
    requires Inv(c)
    ensures UniqueKeys(c.entries) && Lookup([], key) == None
  {
  }

  /** Every step keeps the sequence of every key. */
  lemma StepSequence(c: Cache, command: Command, valid: LabelValidator, key: Key)
    requires Inv(c)
    ensures KeepsSequence(Lookup(c.entries, key), Lookup(Step(c, command, valid).cache.entries, key), command,
                          Heard(c, command, key, valid))
  {
    hide Lookup, Received, Advanced, Snapshotted, Woken, KeepsSequence, UniqueKeys, Inv, Parse;
    EntriesUnique(c, key);
    if command.Receive? {
      ReceiveSequence(c, command.metadata, command.payload, command.now, valid, key);
    } else {
      if command.Advance? {
        AdvanceSequence(c, command.now, key);
      } else if command.ApplySnapshot? {
        SnapshotSequence(c, command.scopes, command.now, key);
      } else if command.Wake? {
        WakeSequence(c, command.scopes, command.now, key);
      }
      IdleSequence(Lookup(c.entries, key), command);
    }
  }

  // ----- The life of an entry -----

  function RunOn(c: Cache, commands: seq<Command>, valid: LabelValidator): Cache
    decreases |commands|
  {
    if |commands| == 0 then c else RunOn(Step(c, commands[0], valid).cache, commands[1..], valid)
  }

  /** The entry under `key` is there throughout: no command removes it, or finds its tombstone expired. */
  ghost predicate LivesOn(c: Cache, commands: seq<Command>, key: Key, valid: LabelValidator)
    decreases |commands|
  {
    && Lookup(c.entries, key).Some?
    && (|commands| == 0 ||
        (!Lapsed(commands[0], Lookup(c.entries, key).value)
         && LivesOn(Step(c, commands[0], valid).cache, commands[1..], key, valid)))
  }

  /** How an entry may have changed in its life: it is the same, or a tombstone of the same sequence where a candidate
      was, or its sequence is higher. */
  predicate LaterLife(e: Entry, r: Entry) {
    r == e || (r.value.highest == e.value.highest && e.candidate && !r.candidate) || r.value.highest > e.value.highest
  }

  lemma LaterStep(before: Option<Entry>, after: Option<Entry>, command: Command, heard: Option<Advertisement>)
    requires before.Some? && after.Some? && KeepsSequence(before, after, command, heard)
    requires !Lapsed(command, before.value)
    ensures LaterLife(before.value, after.value)
  {
  }

  lemma LaterAgain(e: Entry, f: Entry, g: Entry)
    requires LaterLife(e, f) && LaterLife(f, g)
    ensures LaterLife(e, g)
  {
  }

  /** No resurrection. Over any run in which an entry lives on, its sequence never falls, and a tombstone does not
      become a candidate again but by a message of a higher sequence. */
  lemma {:induction false} NoResurrection(c: Cache, commands: seq<Command>, key: Key, valid: LabelValidator)
    requires Inv(c) && LivesOn(c, commands, key, valid)
    ensures var before, after := Lookup(c.entries, key), Lookup(RunOn(c, commands, valid).entries, key);
            && after.Some? && LaterLife(before.value, after.value)
            && (!before.value.candidate && after.value.candidate ==>
                before.value.value.highest < after.value.value.highest)
    decreases |commands|
  {
    hide Inv, Step, Lookup, Heard, KeepsSequence, LaterLife;
    var before := Lookup(c.entries, key);
    if |commands| == 0 {
      LaterSame(before.value);
    } else {
      var next := Step(c, commands[0], valid).cache;
      StepInv(c, commands[0], valid);
      StepSequence(c, commands[0], valid, key);
      LaterStep(before, Lookup(next.entries, key), commands[0], Heard(c, commands[0], key, valid));
      NoResurrection(next, commands[1..], key, valid);
      LaterAgain(before.value, Lookup(next.entries, key).value, Lookup(RunOn(c, commands, valid).entries, key).value);
    }
    LaterRises(before.value, Lookup(RunOn(c, commands, valid).entries, key).value);
  }

  lemma LaterSame(e: Entry)
    ensures LaterLife(e, e)
  {
  }

  lemma LaterRises(e: Entry, r: Entry)
    requires LaterLife(e, r)
    ensures !e.candidate && r.candidate ==> e.value.highest < r.value.highest
  {
  }

  ghost predicate InOrder(commands: seq<Command>, key: Key, valid: LabelValidator) {
    forall i, j ::
      0 <= i < j < |commands| && Speaks(commands[i], key, valid).Some? && Speaks(commands[j], key, valid).Some? ==>
        Speaks(commands[i], key, valid).value < Speaks(commands[j], key, valid).value
  }

  /** The highest sequence of a live entry was carried by some datagram of the run. */
  lemma {:induction false} HighestWasHeard(commands: seq<Command>, key: Key, valid: LabelValidator) returns (i: nat)
    requires Lookup(Run(commands, valid).cache.entries, key).Some?
    ensures i < |commands|
    ensures Speaks(commands[i], key, valid) == Some(Lookup(Run(commands, valid).cache.entries, key).value.value.highest)
  {
    var front := commands[..|commands| - 1];
    RunInv(front, valid);
    StepSequence(Run(front, valid).cache, commands[|commands| - 1], valid, key);
    hide Step, Inv, Parse, Received;
    var before, after := Lookup(Run(front, valid).cache.entries, key), Lookup(Run(commands, valid).cache.entries, key);
    if before.Some? && before.value.value.highest == after.value.value.highest {
      i := HighestWasHeard(front, key, valid);
    } else {
      i := |commands| - 1;
    }
  }

  lemma MessageInOrder(entries: seq<Entry>, key: Key, a: Advertisement, now: u64)
    requires Lookup(entries, key).Some? ==> Lookup(entries, key).value.value.highest < a.sequence
    ensures !OutOfOrder(Message(entries, key, a, now).disposition)
  {
    hide Total, CandidateCapacity, EntryCapacity;
  }

  /** A message above the highest sequence of its key is never judged stale, duplicate or conflicting. */
  lemma NewerIsInOrder(c: Cache, command: Command, key: Key, valid: LabelValidator)
    requires Inv(c) && command.Receive? && Speaks(command, key, valid).Some?
    requires Lookup(c.entries, key).Some? ==>
             Lookup(c.entries, key).value.value.highest < Speaks(command, key, valid).value
    ensures !OutOfOrder(DispositionOf(c, command, valid))
  {
    var entries := Current(c, command.now);
    LookupSwept(EraseTombstones(command.now), c.entries, key);
    ReceivedCases(c, command.metadata, command.payload, command.now, valid);
    hide Received, Parse, Inv, Message, Lookup, Swept;
    MessageInOrder(entries, key, Parse(command.payload, valid).value, command.now);
  }

  /** Datagrams of one key that arrive in increasing order, whatever else arrives and however many are lost, are
      never judged stale, duplicate or conflicting. */
  lemma InOrderNeverRejected(commands: seq<Command>, command: Command, key: Key, valid: LabelValidator)
    requires InOrder(commands + [command], key, valid) && command.Receive? && Speaks(command, key, valid).Some?
    ensures !OutOfOrder(DispositionOf(Run(commands, valid).cache, command, valid))
  {
    var all := commands + [command];
    RunInv(commands, valid);
    hide Run, Speaks, Received, Inv, Lookup;
    if Lookup(Run(commands, valid).cache.entries, key).Some? {
      var i := HighestWasHeard(commands, key, valid);
      assert all[i] == commands[i] && all[|commands|] == command;
    }
    NewerIsInOrder(Run(commands, valid).cache, command, key, valid);
  }
}
