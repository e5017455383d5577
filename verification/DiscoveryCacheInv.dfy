/** Every operation of the discovery cache keeps its accounting invariant. */
module DiscoveryCacheInv {
  import opened Common
  import opened BoundedSelection
  import opened DiscoveryTypes
  import opened DiscoveryEntries
  import opened DiscoveryWire
  import opened DiscoveryCache

  // ----- Entries -----

  lemma AppendUnique(entries: seq<Entry>, e: Entry)
    requires UniqueKeys(entries) && Find(entries, e.value.key) == |entries|
    ensures UniqueKeys(entries + [e])
  {
    hide Find;
  }

  lemma AppendOk(entries: seq<Entry>, e: Entry, scopes: seq<Scope>)
    requires EntriesOk(entries, scopes) && WellShaped(e) && e.value.key.observer in scopes
    requires Find(entries, e.value.key) == |entries|
    requires forall tally: Tally :: Total(tally, entries) + Weight(tally, e) <= Cap(tally)
    ensures EntriesOk(entries + [e], scopes)
  {
    hide UniqueKeys, WellShaped, Find, Total, Weight, Cap;
    AppendUnique(entries, e);
    forall tally: Tally ensures Total(tally, entries + [e]) <= Cap(tally) {
      TotalAppend(tally, entries, e);
    }
    forall x | x in entries + [e] ensures WellShaped(x) && x.value.key.observer in scopes {
      assert x == e || x in entries;
    }
  }

  lemma UpdateOk(entries: seq<Entry>, i: nat, e: Entry, scopes: seq<Scope>)
    requires EntriesOk(entries, scopes) && i < |entries| && WellShaped(e) && e.value.key == entries[i].value.key
    requires forall tally: Tally :: Total(tally, entries) - Weight(tally, entries[i]) + Weight(tally, e) <= Cap(tally)
    ensures EntriesOk(entries[i := e], scopes)
  {
    var after := entries[i := e];
    forall tally: Tally ensures Total(tally, after) <= Cap(tally) {
      TotalUpdate(tally, entries, i, e);
    }
    assert entries[i] in entries;
    forall x | x in after ensures WellShaped(x) && x.value.key.observer in scopes {
      assert x == e || x in entries;
    }
  }

  lemma NewFits(entries: seq<Entry>, e: Entry)
    requires Capped(entries) && EntryCapacity(entries, e.value.key.observer)
    requires e.candidate ==> CandidateCapacity(entries, e.value.key.observer)
    requires Total(RawBytes, entries) + |e.raw| <= MAX_RETAINED_BYTES
    ensures forall tally: Tally :: Total(tally, entries) + Weight(tally, e) <= Cap(tally)
  {
    TotalIsLength(entries);
    forall tally: Tally ensures Total(tally, entries) + Weight(tally, e) <= Cap(tally) {
      assert Total(tally, entries) <= Cap(tally);
    }
  }

  lemma ReplacementFits(entries: seq<Entry>, i: nat, e: Entry)
    requires Capped(entries) && i < |entries| && e.value.key == entries[i].value.key
    requires e.candidate && !entries[i].candidate ==> CandidateCapacity(entries, e.value.key.observer)
    requires Total(RawBytes, entries) - |entries[i].raw| + |e.raw| <= MAX_RETAINED_BYTES
    ensures forall tally: Tally :: Total(tally, entries) - Weight(tally, entries[i]) + Weight(tally, e) <= Cap(tally)
  {
    forall tally: Tally ensures Total(tally, entries) - Weight(tally, entries[i]) + Weight(tally, e) <= Cap(tally) {
      assert Total(tally, entries) <= Cap(tally);
    }
  }

  lemma WithdrawOk(entries: seq<Entry>, key: Key, a: Advertisement, now: u64, scopes: seq<Scope>)
    requires EntriesOk(entries, scopes) && key.observer in scopes
    ensures EntriesOk(WithdrawFrom(entries, key, a, now).entries, scopes)
  {
    var i := Find(entries, key);
    assert Total(RawBytes, entries) <= Cap(RawBytes);
    if WithdrawFrom(entries, key, a, now).disposition.HasTombstoned? {
      var e := Tombstone(key, a.sequence, now + TOMBSTONE_LIFETIME);
      NewFits(entries, e);
      AppendOk(entries, e, scopes);
    } else if WithdrawFrom(entries, key, a, now).disposition.HasWithdrawn? {
      var e := Tombstone(key, a.sequence, now + TOMBSTONE_LIFETIME);
      ReplacementFits(entries, i, e);
      UpdateOk(entries, i, e, scopes);
    }
  }

  lemma AnnounceOkay(entries: seq<Entry>, key: Key, a: Advertisement, now: u64, scopes: seq<Scope>)
    requires EntriesOk(entries, scopes) && key.observer in scopes && 0 < |a.raw| <= MAX_DATAGRAM_SIZE
    ensures EntriesOk(AnnounceTo(entries, key, a, now).entries, scopes)
  {
    var i := Find(entries, key);
    var deadline := now + a.ttl * 1_000;
    var effect := AnnounceTo(entries, key, a, now);
    if effect.entries != entries {
      var e := Fresh(key, a, deadline);
      if i == |entries| {
        NewFits(entries, e);
        AppendOk(entries, e, scopes);
      } else {
        ReplacementFits(entries, i, e);
        UpdateOk(entries, i, e, scopes);
      }
    }
  }

  lemma SweptOk(sweep: Sweep, entries: seq<Entry>, scopes: seq<Scope>)
    requires EntriesOk(entries, scopes)
    ensures EntriesOk(Swept(sweep, entries), scopes)
  {
    SweptUnique(sweep, entries);
    forall tally: Tally ensures Total(tally, Swept(sweep, entries)) <= Cap(tally) {
      SweptTotal(tally, sweep, entries);
    }
    SweptFrom(sweep, entries);
    forall e | e in Swept(sweep, entries) ensures WellShaped(e) && e.value.key.observer in scopes {
      assert Survives(sweep, entries, e);
      var j :| 0 <= j < |entries| && After(sweep, entries[j]) == Some(e);
      assert entries[j] in entries;
    }
  }

  /** What survives the removal of absent scopes is in one that is present. */
  lemma DroppedOk(entries: seq<Entry>, scopes: seq<Scope>, kept: seq<Scope>)
    requires EntriesOk(entries, scopes) && Sorted(kept, ScopeLess)
    ensures EntriesOk(Swept(DropAbsent(kept), entries), kept)
  {
    var sweep := DropAbsent(kept);
    SweptOk(sweep, entries, scopes);
    SweptFrom(sweep, entries);
    ScopeOrder();
    forall e | e in Swept(sweep, entries) ensures e.value.key.observer in kept {
      assert Survives(sweep, entries, e);
      BinarySearchFinds(kept, e.value.key.observer, ScopeLess, SameScope);
    }
  }

  // ----- Scopes, local tokens and source buckets -----

  lemma InstallOk(current: seq<ScopeState>, scopes: seq<Scope>, now: u64)
    requires forall i :: 0 <= i < |current| ==> current[i].bucket.updated <= now
    ensures forall i :: 0 <= i < |scopes| ==> Install(current, scopes, now)[i].bucket.updated <= now
  {
  }

  lemma {:induction false} KeptLocalsFrom(locals: seq<LocalToken>, kept: seq<Scope>)
    requires Sorted(kept, ScopeLess)
    ensures forall l :: l in KeepLocals(locals, kept) ==> l in locals && l.scope in kept
    ensures (forall i, j :: 0 <= i < j < |locals| ==> locals[i].scope != locals[j].scope) ==>
            (forall i, j :: 0 <= i < j < |KeepLocals(locals, kept)| ==>
               KeepLocals(locals, kept)[i].scope != KeepLocals(locals, kept)[j].scope)
  {
    if |locals| > 0 {
      var front, last := locals[..|locals| - 1], locals[|locals| - 1];
      KeptLocalsFrom(front, kept);
      ScopeOrder();
      BinarySearchFinds(kept, last.scope, ScopeLess, SameScope);
      assert forall i :: 0 <= i < |KeepLocals(front, kept)| ==> KeepLocals(front, kept)[i] in front;
    }
  }

  lemma KeptLocalsOk(locals: seq<LocalToken>, scopes: seq<Scope>, kept: seq<Scope>)
    requires LocalsOk(locals, scopes) && Sorted(kept, ScopeLess)
    ensures LocalsOk(KeepLocals(locals, kept), kept)
  {
    KeptLocalsFrom(locals, kept);
    var r := KeepLocals(locals, kept);
    assert forall i :: 0 <= i < |r| ==> r[i] in r;
  }

  predicate Tracks(b: SourceBucket, scope: Scope, source: IpAddress) {
    b.scope == scope && b.source == source
  }

  /** `kept` is `sources` with some buckets left out. */
  ghost predicate Thinned(kept: seq<SourceBucket>, sources: seq<SourceBucket>) {
    && |kept| <= |sources|
    && (forall scope: Scope :: SourcesIn(kept, scope) <= SourcesIn(sources, scope))
    && (forall b :: b in kept ==> b in sources)
    && (Untwinned(sources) ==> Untwinned(kept))
  }

  ghost predicate Untwinned(sources: seq<SourceBucket>) {
    forall i, j :: 0 <= i < j < |sources| ==> !Tracks(sources[i], sources[j].scope, sources[j].source)
  }

  lemma ThinnedFront(kept: seq<SourceBucket>, front: seq<SourceBucket>, last: SourceBucket)
    requires Thinned(kept, front)
    ensures Thinned(kept, front + [last]) && Thinned(kept + [last], front + [last])
  {
    var all, more := front + [last], kept + [last];
    assert all[..|front|] == front && more[..|kept|] == kept;
    assert forall i :: 0 <= i < |kept| ==> kept[i] in front;
    if Untwinned(all) {
      forall i | 0 <= i < |front| ensures !Tracks(front[i], last.scope, last.source) {
        assert all[i] == front[i] && all[|front|] == last;
      }
      assert Untwinned(front) by {
        assert forall i :: 0 <= i < |front| ==> front[i] == all[i];
      }
    }
  }

  lemma {:induction false} IdleThinned(sources: seq<SourceBucket>, now: u64)
    ensures Thinned(DropIdle(sources, now), sources)
  {
    if |sources| > 0 {
      var front, last := sources[..|sources| - 1], sources[|sources| - 1];
      IdleThinned(front, now);
      ThinnedFront(DropIdle(front, now), front, last);
      assert sources == front + [last];
    }
  }

  lemma {:induction false} KeptThinned(sources: seq<SourceBucket>, kept: seq<Scope>)
    requires Sorted(kept, ScopeLess)
    ensures Thinned(KeepSources(sources, kept), sources)
    ensures forall b :: b in KeepSources(sources, kept) ==> b.scope in kept
  {
    if |sources| > 0 {
      var front, last := sources[..|sources| - 1], sources[|sources| - 1];
      KeptThinned(front, kept);
      ThinnedFront(KeepSources(front, kept), front, last);
      assert sources == front + [last];
      ScopeOrder();
      BinarySearchFinds(kept, last.scope, ScopeLess, SameScope);
    }
  }

  lemma ThinnedOk(kept: seq<SourceBucket>, sources: seq<SourceBucket>, scopes: seq<Scope>, into: seq<Scope>, now: u64)
    requires SourcesOk(sources, scopes, now) && Thinned(kept, sources)
    requires forall b :: b in kept ==> b.scope in into
    ensures SourcesOk(kept, into, now)
  {
    assert Untwinned(sources);
    assert forall i :: 0 <= i < |kept| ==> kept[i] in kept;
    forall i, j | 0 <= i < j < |kept| ensures kept[i].scope != kept[j].scope || kept[i].source != kept[j].source {
      assert !Tracks(kept[i], kept[j].scope, kept[j].source);
    }
  }

  lemma {:induction false} SourcesInUpdate(sources: seq<SourceBucket>, k: nat, b: Bucket, scope: Scope)
    requires k < |sources|
    ensures SourcesIn(sources[k := sources[k].(bucket := b)], scope) == SourcesIn(sources, scope)
  {
    var after := sources[k := sources[k].(bucket := b)];
    if k < |sources| - 1 {
      SourcesInUpdate(sources[..|sources| - 1], k, b, scope);
      assert after[..|sources| - 1] == sources[..|sources| - 1][k := sources[k].(bucket := b)];
    } else {
      assert after[..|sources| - 1] == sources[..|sources| - 1];
    }
  }

  lemma BucketUpdateOk(sources: seq<SourceBucket>, k: nat, b: Bucket, scopes: seq<Scope>, now: u64)
    requires SourcesOk(sources, scopes, now) && k < |sources| && b.updated <= now
    ensures SourcesOk(sources[k := sources[k].(bucket := b)], scopes, now)
  {
    var after := sources[k := sources[k].(bucket := b)];
    forall scope: Scope ensures SourcesIn(after, scope) <= MAX_SOURCE_BUCKETS_PER_SCOPE {
      SourcesInUpdate(sources, k, b, scope);
    }
  }

  lemma NewSourceOk(sources: seq<SourceBucket>, b: SourceBucket, scopes: seq<Scope>, now: u64)
    requires SourcesOk(sources, scopes, now) && b.bucket.updated <= now && b.scope in scopes
    requires FindSource(sources, b.scope, b.source) == |sources|
    requires |sources| < MAX_SOURCE_BUCKETS && SourcesIn(sources, b.scope) < MAX_SOURCE_BUCKETS_PER_SCOPE
    ensures SourcesOk(sources + [b], scopes, now)
  {
    assert (sources + [b])[..|sources|] == sources;
  }

  ghost predicate LimitsOk(l: Limits, now: u64) {
    ScopesOk(l.scopes, now) && SourcesOk(l.sources, ScopeList(l.scopes), now) && l.global.updated <= now
  }

  lemma ScopeListSame(a: seq<ScopeState>, b: seq<ScopeState>)
    requires |a| == |b| && forall i :: 0 <= i < |a| ==> a[i].scope == b[i].scope
    ensures ScopeList(a) == ScopeList(b)
  {
  }

  lemma TrackOk(l: Limits, scope: Scope, source: IpAddress, now: u64)
    requires LimitsOk(l, now) && scope in ScopeList(l.scopes)
    ensures LimitsOk(l.(sources := Track(DropIdle(l.sources, now), scope, source, now).0), now)
  {
    var sources, scopes := DropIdle(l.sources, now), ScopeList(l.scopes);
    IdleThinned(l.sources, now);
    assert forall i :: 0 <= i < |l.sources| ==> l.sources[i].scope in scopes;
    ThinnedOk(sources, l.sources, scopes, scopes, now);
    if Track(sources, scope, source, now).0 != sources {
      NewSourceOk(sources, SourceBucket(scope, source, FullBucket(8.0, 16.0, now)), scopes, now);
    }
  }

  lemma SpendOk(l: Limits, s: nat, k: nat, now: u64)
    requires LimitsOk(l, now) && s < |l.scopes| && k < |l.sources|
    ensures LimitsOk(Spend(l, s, k, now).0, now) && ScopeList(Spend(l, s, k, now).0.scopes) == ScopeList(l.scopes)
  {
    hide Available, SourcesOk;
    ScopeListSame(Spend(l, s, k, now).0.scopes, l.scopes);
    BucketUpdateOk(l.sources, k, Consume(l.sources[k].bucket, now), ScopeList(l.scopes), now);
  }

  lemma AdmitOk(l: Limits, scope: Scope, source: IpAddress, now: u64)
    requires LimitsOk(l, now) && FindScope(l.scopes, scope) < |l.scopes|
    ensures LimitsOk(Admit(l, scope, source, now).0, now)
    ensures ScopeList(Admit(l, scope, source, now).0.scopes) == ScopeList(l.scopes)
  {
    assert ScopeList(l.scopes)[FindScope(l.scopes, scope)] == scope;
    TrackOk(l, scope, source, now);
    var (known, room) := Track(DropIdle(l.sources, now), scope, source, now);
    if room {
      SpendOk(l.(sources := known), FindScope(l.scopes, scope), FindSource(DropIdle(l.sources, now), scope, source),
              now);
    }
  }

  // ----- Steps -----

  /** Later times keep everything that is true of the buckets. */
  lemma LaterOk(l: Limits, now: u64, later: u64)
    requires LimitsOk(l, now) && now <= later
    ensures LimitsOk(l, later)
  {
  }

  lemma AtTimeInv(c: Cache, now: u64)
    requires Inv(c) && Listening(c, now)
    ensures Inv(AtTime(c, now))
  {
    SweptOk(EraseTombstones(now), c.entries, ScopeList(c.limits.scopes));
    LaterOk(c.limits, c.now, now);
  }

  lemma DeliverOk(c: Cache, m: Metadata, payload: seq<u8>, valid: LabelValidator)
    requires Inv(c) && HasScope(c, m.observer)
    ensures EntriesOk(Deliver(c, m, payload, valid).entries, ScopeList(c.limits.scopes))
  {
    var scopes := ScopeList(c.limits.scopes);
    assert scopes[FindScope(c.limits.scopes, m.observer)] == m.observer;
    if !m.truncated && Parse(payload, valid).Ok? {
      var a := Parse(payload, valid).value;
      assert |a.raw| >= HEADER_SIZE;
      hide Parse;
      WithdrawOk(c.entries, Key(m.observer, m.source, a.token), a, c.now, scopes);
      AnnounceOkay(c.entries, Key(m.observer, m.source, a.token), a, c.now, scopes);
    }
  }

  lemma ReceiveInv(c: Cache, m: Metadata, payload: seq<u8>, now: u64, valid: LabelValidator)
    requires Inv(c)
    ensures Inv(Received(c, m, payload, now, valid).0)
  {
    if Listening(c, now) {
      AtTimeInv(c, now);
      var c1 := AtTime(c, now);
      if MetadataOk(c1, m) {
        AdmitOk(c1.limits, m.observer, m.source, now);
        DeliverOk(c1, m, payload, valid);
        hide Deliver, Admit, EntriesOk, ScopesOk, LocalsOk, SourcesOk, AtTime, MetadataOk;
      }
    }
  }

  lemma RescopedInv(c: Cache, scopes: seq<Scope>)
    requires Inv(c) && c.phase == Running && Sorted(scopes, ScopeLess) && |scopes| <= MAX_SCOPES
    ensures Inv(Rescoped(c, scopes))
  {
    var installed := ScopeList(c.limits.scopes);
    DroppedOk(c.entries, installed, scopes);
    KeptLocalsOk(c.locals, installed, scopes);
    KeptThinned(c.limits.sources, scopes);
    ThinnedOk(KeepSources(c.limits.sources, scopes), c.limits.sources, installed, scopes, c.now);
    InstallOk(c.limits.scopes, scopes, c.now);
    assert ScopeList(Install(c.limits.scopes, scopes, c.now)) == scopes;
  }

  lemma SetLocalInv(c: Cache, scope: Scope, token: seq<u8>)
    requires Inv(c) && !AllZero(token) && HasScope(c, scope)
    ensures Inv(c.(locals := WithLocal(c.locals, scope, token).0))
  {
    assert ScopeList(c.limits.scopes)[FindScope(c.limits.scopes, scope)] == scope;
  }

  lemma StartInv(c: Cache, scopes: seq<Scope>, now: u64)
    requires Inv(c) && c.phase == Created
    ensures Inv(Started(c, scopes, now))
  {
    CanonicalSelects(scopes);
    InstallOk(c.limits.scopes, Canonical(scopes), now);
    assert ScopeList(Install(c.limits.scopes, Canonical(scopes), now)) == Canonical(scopes);
  }

  lemma HaltedInv(c: Cache)
    requires Inv(c)
    ensures Inv(Halted(c))
  {
  }

  lemma AdvancedInv(c: Cache, now: u64)
    requires Inv(c) && Listening(c, now)
    ensures Inv(Advanced(c, now).cache)
  {
    var scopes := ScopeList(c.limits.scopes);
    SweptOk(BuryDue(now), c.entries, scopes);
    SweptOk(EraseTombstones(now), Swept(BuryDue(now), c.entries), scopes);
    LaterOk(c.limits, c.now, now);
  }

  lemma WokenInv(c: Cache, scopes: seq<Scope>, now: u64)
    requires Inv(c) && Listening(c, now)
    ensures Inv(Woken(c, scopes, now).cache)
  {
    AtTimeInv(c, now);
    var c1 := AtTime(c, now);
    SweptOk(BuryAll(now), c1.entries, ScopeList(c.limits.scopes));
    CanonicalSelects(scopes);
    var c2 := c1.(entries := Swept(BuryAll(now), c1.entries));
    RescopedInv(c2, Canonical(scopes));
  }

  lemma SnapshottedInv(c: Cache, scopes: seq<Scope>, now: u64)
    requires Inv(c) && Listening(c, now)
    ensures Inv(Snapshotted(c, scopes, now).cache)
  {
    AtTimeInv(c, now);
    CanonicalSelects(scopes);
    RescopedInv(AtTime(c, now), Canonical(scopes));
  }

  /** Every operation keeps the invariant. */
  lemma StepInv(c: Cache, command: Command, valid: LabelValidator)
    requires Inv(c)
    ensures Inv(Step(c, command, valid).cache)
  {
    hide Inv, Started, Received, Advanced, Snapshotted, Woken;
    match command
    case Start(scopes, now) =>
      if c.phase == Created {
        StartInv(c, scopes, now);
      }
    case Stop => HaltedInv(c);
    case SetLocalToken(scope, token) =>
      if c.phase == Running && !AllZero(token) && HasScope(c, scope) {
        SetLocalInv(c, scope, token);
      }
    case Receive(m, payload, now) => ReceiveInv(c, m, payload, now, valid);
    case Advance(now) =>
      if Listening(c, now) {
        AdvancedInv(c, now);
      }
    case ApplySnapshot(scopes, now) =>
      if Listening(c, now) {
        SnapshottedInv(c, scopes, now);
      }
    case Wake(scopes, now) =>
      if Listening(c, now) {
        WokenInv(c, scopes, now);
      }
  }
}
