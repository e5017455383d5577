/** The discovery cache as an object: vectors changed in place under its lock, proved
    against the steps of `DiscoveryCache`. */
module DiscoveryCacheClass {
  import opened Common
  import opened BoundedSelection
  import opened DiscoveryTypes
  import opened DiscoveryEntries
  import opened DiscoveryWire
  import opened DiscoveryCache
  import opened DiscoveryCacheInv

  class CacheImpl {
    const valid: LabelValidator
    var phase: Phase
    var now: u64
    var global: Bucket
    var scopes: seq<ScopeState>
    var locals: seq<LocalToken>
    var sources: seq<SourceBucket>
    var entries: seq<Entry>
    var retained: nat

    ghost function View(): Cache
      reads this
    {
      Cache(phase, now, Limits(global, scopes, sources), locals, entries)
    }

    /** The running byte count is that of the retained datagrams. */
    ghost predicate Valid()
      reads this
    {
      Inv(View()) && retained == Total(RawBytes, entries)
    }

    constructor (valid: LabelValidator)
      ensures Valid() && View() == Initial() && this.valid == valid
    {
      this.valid := valid;
      phase, now, global := Created, 0, Bucket(0.0, 0.0, 0.0, 0);
      scopes, locals, sources, entries, retained := [], [], [], [], 0;
    }

    method InstallScopes(list: seq<Scope>, at: u64)
      modifies this`scopes
      ensures scopes == Install(old(scopes), list, at)
    {
      var replacement := [];
      for i := 0 to |list|
        invariant replacement == Install(old(scopes), list[..i], at) && scopes == old(scopes)
      {
        assert list[..i + 1][..i] == list[..i];
        var k := FindScope(scopes, list[i]);
        replacement := replacement
          + [if k < |scopes| then scopes[k] else ScopeState(list[i], FullBucket(128.0, 256.0, at))];
      }
      assert list[..|list|] == list;
      scopes := replacement;
    }

    method Start(list: seq<Scope>, at: u64) returns (ok: bool)
      requires Valid()
      modifies this
      ensures Valid() && View() == Step(old(View()), Command.Start(list, at), valid).cache
      ensures ok == (old(phase) == Created)
    {
      hide Inv, Install, Canonical, Total;
      StepInv(View(), Command.Start(list, at), valid);
      if phase != Created {
        return false;
      }
      now := at;
      global := FullBucket(256.0, 512.0, at);
      var canonical := CanonicalScopes(list);
      InstallScopes(canonical, at);
      phase := Running;
      return true;
    }

    method Stop()
      requires Valid()
      modifies this
      ensures Valid() && View() == Step(old(View()), Command.Stop, valid).cache
    {
      StepInv(View(), Command.Stop, valid);
      phase := Stopped;
      scopes, locals, sources, entries, retained := [], [], [], [], 0;
    }

    /** The capacity test never refuses: an installed scope without a token leaves a free place. */
    method SetLocalToken(scope: Scope, token: seq<u8>) returns (ok: bool)
      requires Valid()
      modifies this
      ensures Valid() && View() == Step(old(View()), Command.SetLocalToken(scope, token), valid).cache
      ensures ok == (old(phase) == Running && !AllZero(token) && HasScope(old(View()), scope))
    {
      StepInv(View(), Command.SetLocalToken(scope, token), valid);
      if phase != Running || AllZero(token) || FindScope(scopes, scope) == |scopes| {
        return false;
      }
      LocalsFit(locals, ScopeList(scopes), scope);
      var i := FindLocal(locals, scope);
      if i < |locals| {
        locals := locals[i := LocalToken(scope, token)];
        return true;
      }
      if |locals| == MAX_SCOPES {
        return false;
      }
      locals := locals + [LocalToken(scope, token)];
      return true;
    }

    method EraseExpiredTombstones(at: u64)
      requires Weightless(entries) && retained == Total(RawBytes, entries)
      modifies this`entries
      ensures entries == Swept(EraseTombstones(at), old(entries)) && retained == Total(RawBytes, entries)
    {
      TombstonesWeightless(entries, at);
      entries := Swept(EraseTombstones(at), entries);
    }

    /** Turn candidates that are due, or all of them, into tombstones, one at a time. */
    method BuryCandidates(at: u64, all: bool) returns (events: seq<Event>)
      requires retained == Total(RawBytes, entries)
      modifies this`entries, this`retained
      ensures var sweep := if all then BuryAll(at) else BuryDue(at);
              entries == Swept(sweep, old(entries)) && events == Expiries(sweep, old(entries))
      ensures retained == Total(RawBytes, entries)
    {
      events := [];
      ghost var was, sweep := entries, if all then BuryAll(at) else BuryDue(at);
      ghost var done: seq<Entry> := [];
      hide Swept, Expiries, Total;
      SweptNone(sweep);
      assert was[..0] == [];
      for i := 0 to |entries|
        invariant |entries| == |was| && |done| == i && entries == done + was[i..]
        invariant done == Swept(sweep, was[..i]) && events == Expiries(sweep, was[..i])
        invariant retained == Total(RawBytes, entries)
      {
        var entry := entries[i];
        assert entry == was[i];
        SweptStep(sweep, was, i);
        done := done + [After(sweep, entry).value];
        if entry.candidate && (all || at >= entry.value.deadline) {
          events := events + [Expired(entry.value, if all then Waking else Ttl)];
          TotalSplit(RawBytes, entries, i);
          TotalUpdate(RawBytes, entries, i, Bury(entry, at));
          retained := retained - |entry.raw|;
          entries := entries[i := Bury(entry, at)];
        }
      }
      assert was[..|was|] == was && was[|was|..] == [];
    }

    /** Erase the entries whose scope is gone, with an event for each candidate among them. */
    method RemoveAbsentEntries(kept: seq<Scope>) returns (events: seq<Event>)
      requires Weightless(entries) && retained == Total(RawBytes, entries)
      modifies this`entries, this`retained
      ensures entries == Swept(DropAbsent(kept), old(entries)) && events == Expiries(DropAbsent(kept), old(entries))
      ensures retained == Total(RawBytes, entries)
    {
      events := [];
      var i := 0;
      ghost var was, k := entries, 0;
      ghost var done: seq<Entry> := [];
      hide Swept, Expiries, Total, BinarySearch;
      SweptNone(DropAbsent(kept));
      assert was[..0] == [];
      while i < |entries|
        invariant k <= |was| && i == |done| && entries == done + was[k..]
        invariant done == Swept(DropAbsent(kept), was[..k]) && events == Expiries(DropAbsent(kept), was[..k])
        invariant retained == Total(RawBytes, entries)
        decreases |was| - k
      {
        var entry := entries[i];
        assert entry == was[k];
        SweptStep(DropAbsent(kept), was, k);
        if BinarySearch(kept, entry.value.key.observer, ScopeLess) {
          done := done + [entry];
          i := i + 1;
        } else {
          TotalSplit(RawBytes, entries, i);
          TotalConcat(RawBytes, entries[..i], entries[i + 1..]);
          assert entry in was;
          if entry.candidate {
            events := events + [Expired(entry.value, InterfaceRemoved)];
            retained := retained - |entry.raw|;
          }
          assert entries[..i] == done && entries[i + 1..] == was[k + 1..];
          entries := entries[..i] + entries[i + 1..];
        }
        k := k + 1;
      }
      assert was[..|was|] == was && was[|was|..] == [];
    }

    method RemoveAbsentScopes(kept: seq<Scope>) returns (events: seq<Event>)
      requires Weightless(entries) && retained == Total(RawBytes, entries)
      modifies this`entries, this`retained, this`locals, this`sources
      ensures entries == Swept(DropAbsent(kept), old(entries)) && events == Expiries(DropAbsent(kept), old(entries))
      ensures locals == KeepLocals(old(locals), kept) && sources == KeepSources(old(sources), kept)
      ensures retained == Total(RawBytes, entries)
    {
      events := RemoveAbsentEntries(kept);
      locals := KeepLocals(locals, kept);
      sources := KeepSources(sources, kept);
    }

    method Advance(at: u64) returns (events: seq<Event>)
      requires Valid()
      modifies this
      ensures Valid()
      ensures Outcome(View(), events) == Step(old(View()), Command.Advance(at), valid)
    {
      hide Inv, Swept, Expiries, Total, Weightless;
      StepInv(View(), Command.Advance(at), valid);
      InvWeightless(View());
      if phase != Running || at < now {
        return [];
      }
      SweptWeightless(BuryDue(at), entries);
      now := at;
      events := BuryCandidates(at, false);
      EraseExpiredTombstones(at);
    }

    method ApplyInterfaceSnapshot(list: seq<Scope>, at: u64) returns (events: seq<Event>)
      requires Valid()
      modifies this
      ensures Valid()
      ensures Outcome(View(), events) == Step(old(View()), ApplySnapshot(list, at), valid)
    {
      hide Inv, Swept, Expiries, Total, Weightless, Install, Canonical, KeepLocals, KeepSources;
      StepInv(View(), ApplySnapshot(list, at), valid);
      InvWeightless(View());
      if phase != Running || at < now {
        return [];
      }
      SweptWeightless(EraseTombstones(at), entries);
      now := at;
      EraseExpiredTombstones(at);
      var replacement := CanonicalScopes(list);
      events := RemoveAbsentScopes(replacement);
      InstallScopes(replacement, at);
    }

    /** `Admit`. No bucket was updated later than `at`, so no elapsed time is negative. */
    method AdmitDatagram(scope: Scope, source: IpAddress, at: u64) returns (ok: bool)
      requires LimitsOk(Limits(global, scopes, sources), at)
      modifies this`global, this`scopes, this`sources
      ensures (Limits(global, scopes, sources), ok) == Admit(old(Limits(global, scopes, sources)), scope, source, at)
    {
      assert forall i :: 0 <= i < |sources| ==> sources[i].bucket.updated <= at;
      hide SourcesOk, ScopesOk, DropIdle, Available;
      sources := DropIdle(sources, at);
      var s := FindScope(scopes, scope);
      if s == |scopes| {
        return false;
      }
      var k := FindSource(sources, scope, source);
      if k == |sources| {
        if |sources| >= MAX_SOURCE_BUCKETS || SourcesIn(sources, scope) >= MAX_SOURCE_BUCKETS_PER_SCOPE {
          return false;
        }
        sources := sources + [SourceBucket(scope, source, FullBucket(8.0, 16.0, at))];
      }
      if Available(global, at) < 1.0 || Available(scopes[s].bucket, at) < 1.0
         || Available(sources[k].bucket, at) < 1.0 {
        return false;
      }
      global := Consume(global, at);
      scopes := scopes[s := scopes[s].(bucket := Consume(scopes[s].bucket, at))];
      sources := sources[k := sources[k].(bucket := Consume(sources[k].bucket, at))];
      return true;
    }

    /** `Announce`; `i` is the position found for the key. */
    method Announce(key: Key, a: Advertisement, i: nat, at: u64) returns (events: seq<Event>, d: Disposition)
      requires i == Find(entries, key) && retained == Total(RawBytes, entries)
      modifies this`entries, this`retained
      ensures Effect(entries, events, d) == AnnounceTo(old(entries), key, a, at)
      ensures retained == Total(RawBytes, entries)
    {
      hide CandidateCapacity, EntryCapacity, Total;
      var deadline := at + a.ttl * 1_000;
      if deadline > U64_MAX {
        return [], DroppedTimeOverflow;
      }
      if i == |entries| {
        if !CandidateCapacity(entries, key.observer) || !EntryCapacity(entries, key.observer)
           || retained + |a.raw| > MAX_RETAINED_BYTES {
          return [], DroppedCapacity;
        }
        var entry := Fresh(key, a, deadline);
        TotalAppend(RawBytes, entries, entry);
        retained := retained + |entry.raw|;
        entries := entries + [entry];
        return [Appeared(entry.value)], HasAppeared;
      }
      var entry := entries[i];
      if !entry.candidate && a.sequence <= entry.value.highest {
        return [], DroppedStale;
      }
      if a.sequence < entry.value.highest {
        return [], DroppedStale;
      }
      if a.sequence == entry.value.highest {
        return [], if entry.candidate && entry.raw == a.raw then DroppedDuplicate else DroppedSequenceConflict;
      }
      if !entry.candidate && !CandidateCapacity(entries, key.observer) {
        return [], DroppedCapacity;
      }
      events, d := Replace(i, Fresh(key, a, deadline));
    }

    /** The last part of `Announce`: a later message takes the place of what was there. */
    method Replace(i: nat, replacement: Entry) returns (events: seq<Event>, d: Disposition)
      requires i < |entries| && replacement.candidate && retained == Total(RawBytes, entries)
      modifies this`entries, this`retained
      ensures var was := old(entries[i]);
              if old(retained) - |was.raw| + |replacement.raw| > MAX_RETAINED_BYTES then
                entries == old(entries) && events == [] && d == DroppedCapacity
              else
                && entries == old(entries)[i := replacement]
                && (if !was.candidate then events == [Appeared(replacement.value)] && d == HasAppeared
                    else if was.value.port != replacement.value.port || was.value.name != replacement.value.name then
                      events == [Updated(replacement.value)] && d == HasUpdated
                    else events == [] && d == HasRefreshed)
      ensures retained == Total(RawBytes, entries)
    {
      var entry := entries[i];
      TotalSplit(RawBytes, entries, i);
      TotalUpdate(RawBytes, entries, i, replacement);
      hide Total;
      var released: nat := retained - |entry.raw|;
      if released + |replacement.raw| > MAX_RETAINED_BYTES {
        return [], DroppedCapacity;
      }
      var wasTombstone := !entry.candidate;
      var visibleChanged := wasTombstone || entry.value.port != replacement.value.port
                            || entry.value.name != replacement.value.name;
      retained := released;
      entries := entries[i := replacement];
      retained := retained + |replacement.raw|;
      if wasTombstone {
        return [Appeared(replacement.value)], HasAppeared;
      } else if visibleChanged {
        return [Updated(replacement.value)], HasUpdated;
      }
      return [], HasRefreshed;
    }

    method Withdraw(key: Key, a: Advertisement, i: nat, at: u64) returns (events: seq<Event>, d: Disposition)
      requires i == Find(entries, key) && Weightless(entries) && retained == Total(RawBytes, entries)
      modifies this`entries, this`retained
      ensures Effect(entries, events, d) == WithdrawFrom(old(entries), key, a, at)
      ensures retained == Total(RawBytes, entries)
    {
      hide EntryCapacity, Total;
      events := [];
      var retainUntil := at + TOMBSTONE_LIFETIME;
      if retainUntil > U64_MAX {
        return [], DroppedTimeOverflow;
      }
      var tombstone := Tombstone(key, a.sequence, retainUntil);
      if i == |entries| {
        if !EntryCapacity(entries, key.observer) {
          return [], DroppedCapacity;
        }
        TotalAppend(RawBytes, entries, tombstone);
        entries := entries + [tombstone];
        return [], HasTombstoned;
      }
      if a.sequence <= entries[i].value.highest {
        return [], DroppedStale;
      }
      TotalSplit(RawBytes, entries, i);
      TotalUpdate(RawBytes, entries, i, tombstone);
      if entries[i].candidate {
        events := [Expired(entries[i].value, Withdrawn)];
        retained := retained - |entries[i].raw|;
      }
      entries := entries[i := tombstone];
      return events, HasWithdrawn;
    }

    /** What an admitted datagram does to the entries. */
    method DeliverDatagram(m: Metadata, payload: seq<u8>) returns (events: seq<Event>, d: Disposition)
      requires Weightless(entries) && retained == Total(RawBytes, entries)
      modifies this`entries, this`retained
      ensures Effect(entries, events, d) == Deliver(old(View()), m, payload, valid)
      ensures retained == Total(RawBytes, entries)
    {
      hide Parse, AnnounceTo, WithdrawFrom, Total, Weightless;
      if m.truncated {
        return [], DroppedTruncated;
      }
      var parsed := ParseAdvertisement(payload, valid);
      if parsed.Err? {
        return [], DroppedMalformed(parsed.error);
      }
      var a := parsed.value;
      if IsSelf(locals, m.observer, a.token) {
        return [], DroppedSelf;
      }
      var key := Key(m.observer, m.source, a.token);
      var i := Find(entries, key);
      if a.kind == DiscoveryWire.Withdraw {
        events, d := Withdraw(key, a, i, now);
      } else {
        events, d := Announce(key, a, i, now);
      }
    }

    method Receive(m: Metadata, payload: seq<u8>, at: u64) returns (events: seq<Event>, d: Disposition)
      requires Valid()
      modifies this
      ensures Valid()
      ensures var (c, effect) := Received(old(View()), m, payload, at, valid);
              View() == c && events == effect.events && d == effect.disposition
    {
      hide Inv, Deliver, Admit, Swept, Total, Weightless, LimitsOk, IsValidSource, IsDiscoveryDestination;
      StepInv(View(), Command.Receive(m, payload, at), valid);
      InvWeightless(View());
      if phase != Running {
        return [], DroppedStopped;
      }
      if at < now {
        return [], DroppedClockRegression;
      }
      AtTimeInv(View(), at);
      SweptWeightless(EraseTombstones(at), entries);
      InvLimits(AtTime(View(), at));
      now := at;
      EraseExpiredTombstones(at);
      if !m.eligible || FindScope(scopes, m.observer) == |scopes| || !IsValidSource(m) || !IsDiscoveryDestination(m) {
        return [], DroppedMetadata;
      }
      ghost var c1 := View();
      var ok := AdmitDatagram(m.observer, m.source, at);
      if !ok {
        return [], DroppedRateLimit;
      }
      DeliverLimitFree(c1, View(), m, payload, valid);
      events, d := DeliverDatagram(m, payload);
    }

    method BuryEverything(at: u64) returns (events: seq<Event>)
      requires Weightless(entries) && retained == Total(RawBytes, entries)
      modifies this`entries, this`retained
      ensures var live := Swept(EraseTombstones(at), old(entries));
              entries == Swept(BuryAll(at), live) && events == Expiries(BuryAll(at), live)
      ensures Weightless(entries) && retained == Total(RawBytes, entries)
    {
      SweptWeightless(EraseTombstones(at), entries);
      SweptWeightless(BuryAll(at), Swept(EraseTombstones(at), entries));
      EraseExpiredTombstones(at);
      events := BuryCandidates(at, true);
    }

    method Wake(list: seq<Scope>, at: u64) returns (events: seq<Event>)
      requires Valid()
      modifies this
      ensures Valid()
      ensures Outcome(View(), events) == Step(old(View()), Command.Wake(list, at), valid)
    {
      hide Inv, Swept, Expiries, Total, Weightless, Install, Canonical, KeepLocals, KeepSources;
      StepInv(View(), Command.Wake(list, at), valid);
      InvWeightless(View());
      if phase != Running || at < now {
        return [];
      }
      now := at;
      events := BuryEverything(at);
      var replacement := CanonicalScopes(list);
      var more := RemoveAbsentScopes(replacement);
      events := events + more;
      locals := [];
      InstallScopes(replacement, at);
    }
  }

  /** Distinct installed scopes other than `scope` leave room for one more local token. */
  lemma LocalsFit(locals: seq<LocalToken>, installed: seq<Scope>, scope: Scope)
    requires LocalsOk(locals, installed) && |installed| <= MAX_SCOPES && scope in installed
    ensures FindLocal(locals, scope) == |locals| ==> |locals| < MAX_SCOPES
  {
    if FindLocal(locals, scope) == |locals| {
      var used := set i | 0 <= i < |locals| :: locals[i].scope;
      var all := set i | 0 <= i < |installed| :: installed[i];
      DistinctCount(locals);
      ListCount(installed);
      assert used + {scope} <= all;
      CardinalityLeq(used + {scope}, all);
    }
  }

  lemma {:induction false} DistinctCount(locals: seq<LocalToken>)
    requires forall i, j :: 0 <= i < j < |locals| ==> locals[i].scope != locals[j].scope
    ensures |set i | 0 <= i < |locals| :: locals[i].scope| == |locals|
  {
    if |locals| > 0 {
      var front := locals[..|locals| - 1];
      DistinctCount(front);
      assert (set i | 0 <= i < |locals| :: locals[i].scope) ==
             (set i | 0 <= i < |front| :: front[i].scope) + {locals[|locals| - 1].scope};
    }
  }

  lemma {:induction false} ListCount(scopes: seq<Scope>)
    ensures |set i | 0 <= i < |scopes| :: scopes[i]| <= |scopes|
  {
    if |scopes| > 0 {
      var front := scopes[..|scopes| - 1];
      ListCount(front);
      assert (set i | 0 <= i < |scopes| :: scopes[i]) ==
             (set i | 0 <= i < |front| :: front[i]) + {scopes[|scopes| - 1]};
    }
  }

  lemma CardinalityLeq(a: set<Scope>, b: set<Scope>)
    requires a <= b
    ensures |a| <= |b|
  {
    assert b == a + (b - a);
  }

  /** Tombstones retain no bytes. */
  ghost predicate Weightless(entries: seq<Entry>) {
    forall e :: e in entries && !e.candidate ==> e.raw == []
  }

  lemma InvWeightless(c: Cache)
    requires Inv(c)
    ensures Weightless(c.entries)
  {
  }

  lemma InvLimits(c: Cache)
    requires Inv(c)
    ensures LimitsOk(c.limits, c.now)
  {
  }

  /** What a datagram does depends on no bucket. */
  lemma DeliverLimitFree(a: Cache, b: Cache, m: Metadata, payload: seq<u8>, valid: LabelValidator)
    requires b == a.(limits := b.limits)
    ensures Deliver(a, m, payload, valid) == Deliver(b, m, payload, valid)
  {
    hide Parse, Message;
  }

  lemma SweptWeightless(sweep: Sweep, entries: seq<Entry>)
    requires Weightless(entries)
    ensures Weightless(Swept(sweep, entries))
  {
    SweptFrom(sweep, entries);
    forall e | e in Swept(sweep, entries) && !e.candidate ensures e.raw == [] {
      assert Survives(sweep, entries, e);
    }
  }

  lemma SweptNone(sweep: Sweep)
    ensures Swept(sweep, []) == [] && Expiries(sweep, []) == []
  {
  }

  lemma SweptStep(sweep: Sweep, entries: seq<Entry>, i: nat)
    requires i < |entries|
    ensures Swept(sweep, entries[..i + 1]) ==
            Swept(sweep, entries[..i]) + if After(sweep, entries[i]).Some? then [After(sweep, entries[i]).value] else []
    ensures Expiries(sweep, entries[..i + 1]) ==
            Expiries(sweep, entries[..i])
              + if Lost(sweep, entries[i]) then [Expired(entries[i].value, Reason(sweep))] else []
  {
    assert entries[..i + 1][..i] == entries[..i];
  }

  lemma {:induction false} TombstonesWeightless(entries: seq<Entry>, at: u64)
    requires Weightless(entries)
    ensures Total(RawBytes, Swept(EraseTombstones(at), entries)) == Total(RawBytes, entries)
  {
    if |entries| > 0 {
      var front, last := entries[..|entries| - 1], entries[|entries| - 1];
      TombstonesWeightless(front, at);
      TotalAppend(RawBytes, Swept(EraseTombstones(at), front), last);
    }
  }
}
