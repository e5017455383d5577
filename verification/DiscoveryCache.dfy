/** The discovery cache as a function of its state: one step per public operation. */
module DiscoveryCache {
  import opened Common
  import opened BoundedSelection
  import opened DiscoveryTypes
  import opened DiscoveryEntries
  import opened DiscoveryWire

  const DISCOVERY_PORT := 45_878
  const MAX_SOURCE_BUCKETS := 1_024
  const MAX_SOURCE_BUCKETS_PER_SCOPE := 128
  const SOURCE_BUCKET_IDLE := 60_000
  const IPV4_GROUP: seq<u8> := [239, 255, 88, 78]
  const IPV6_GROUP: seq<u8> := [0xff, 0x12, 0, 0, 0, 0, 0, 0, 0, 0, 0, 0, 0x58, 0x4e, 0x4e, 0x44]

  datatype Disposition =
    | HasAppeared | HasUpdated | HasRefreshed | HasWithdrawn | HasTombstoned
    | DroppedStopped | DroppedClockRegression | DroppedMetadata | DroppedRateLimit | DroppedTruncated
    | DroppedMalformed(error: ParseError) | DroppedSelf | DroppedStale | DroppedDuplicate | DroppedSequenceConflict
    | DroppedCapacity | DroppedTimeOverflow

  predicate Accepted(d: Disposition) {
    d.HasAppeared? || d.HasUpdated? || d.HasRefreshed? || d.HasWithdrawn? || d.HasTombstoned?
  }

  // ----- Messages on the entry list -----

  datatype Effect = Effect(entries: seq<Entry>, events: seq<Event>, disposition: Disposition)

  predicate CandidateCapacity(entries: seq<Entry>, scope: Scope) {
    Total(AllCandidates, entries) < MAX_CANDIDATES && Total(CandidatesIn(scope), entries) < MAX_CANDIDATES_PER_SCOPE
  }

  predicate EntryCapacity(entries: seq<Entry>, scope: Scope) {
    |entries| < MAX_ENTRIES && Total(EntriesIn(scope), entries) < MAX_ENTRIES_PER_SCOPE
  }

  function Fresh(key: Key, a: Advertisement, deadline: u64): Entry {
    Entry(true, Candidate(key, a.port, a.name, deadline, a.sequence), a.raw, 0)
  }

  function Drop(entries: seq<Entry>, disposition: Disposition): Effect {
    Effect(entries, [], disposition)
  }

  function AnnounceNew(entries: seq<Entry>, key: Key, a: Advertisement, deadline: u64): Effect {
    if !CandidateCapacity(entries, key.observer) || !EntryCapacity(entries, key.observer)
       || Total(RawBytes, entries) + |a.raw| > MAX_RETAINED_BYTES then Drop(entries, DroppedCapacity)
    else
      var e := Fresh(key, a, deadline);
      Effect(entries + [e], [Appeared(e.value)], HasAppeared)
  }

  /** Why a further announcement of an entry is not taken. */
  function AnnounceError(entries: seq<Entry>, e: Entry, a: Advertisement): Option<Disposition> {
    if !e.candidate && a.sequence <= e.value.highest then Some(DroppedStale)
    else if a.sequence < e.value.highest then Some(DroppedStale)
    else if a.sequence == e.value.highest then
      Some(if e.candidate && e.raw == a.raw then DroppedDuplicate else DroppedSequenceConflict)
    else if !e.candidate && !CandidateCapacity(entries, e.value.key.observer) then Some(DroppedCapacity)
    else if Total(RawBytes, entries) - |e.raw| + |a.raw| > MAX_RETAINED_BYTES then Some(DroppedCapacity)
    else None
  }

  function AnnounceAgain(entries: seq<Entry>, i: nat, a: Advertisement, deadline: u64): Effect
    requires i < |entries|
  {
    var e := entries[i];
    var error := AnnounceError(entries, e, a);
    if error.Some? then Drop(entries, error.value)
    else
      var next := Fresh(e.value.key, a, deadline);
      var after := entries[i := next];
      if !e.candidate then Effect(after, [Appeared(next.value)], HasAppeared)
      else if e.value.port != a.port || e.value.name != a.name then Effect(after, [Updated(next.value)], HasUpdated)
      else Effect(after, [], HasRefreshed)
  }

  function AnnounceTo(entries: seq<Entry>, key: Key, a: Advertisement, now: u64): Effect {
    var deadline := now + a.ttl * 1_000;
    if deadline > U64_MAX then Drop(entries, DroppedTimeOverflow)
    else
      var i := Find(entries, key);
      if i == |entries| then AnnounceNew(entries, key, a, deadline) else AnnounceAgain(entries, i, a, deadline)
  }

  function Tombstone(key: Key, sequence: u64, retainUntil: u64): Entry {
    Entry(false, Candidate(key, 0, [], 0, sequence), [], retainUntil)
  }

  function WithdrawFrom(entries: seq<Entry>, key: Key, a: Advertisement, now: u64): Effect {
    var retainUntil := now + TOMBSTONE_LIFETIME;
    if retainUntil > U64_MAX then Drop(entries, DroppedTimeOverflow)
    else
      var i := Find(entries, key);
      if i == |entries| then
        if !EntryCapacity(entries, key.observer) then Drop(entries, DroppedCapacity)
        else Effect(entries + [Tombstone(key, a.sequence, retainUntil)], [], HasTombstoned)
      else if a.sequence <= entries[i].value.highest then Drop(entries, DroppedStale)
      else
        Effect(entries[i := Tombstone(key, a.sequence, retainUntil)],
               if entries[i].candidate then [Expired(entries[i].value, Withdrawn)] else [], HasWithdrawn)
  }

  function Message(entries: seq<Entry>, key: Key, a: Advertisement, now: u64): Effect {
    if a.kind == Withdraw then WithdrawFrom(entries, key, a, now) else AnnounceTo(entries, key, a, now)
  }

  // ----- Rate limiting -----

  /** A token bucket, with exact arithmetic in place of doubles. */
  datatype Bucket = Bucket(rate: real, burst: real, tokens: real, updated: u64)

  function FullBucket(rate: real, burst: real, now: u64): Bucket {
    Bucket(rate, burst, burst, now)
  }

  function Available(b: Bucket, now: u64): real {
    var filled := b.tokens + (now - b.updated) as real * b.rate / 1000.0;
    if filled < b.burst then filled else b.burst
  }

  function Consume(b: Bucket, now: u64): Bucket {
    b.(tokens := Available(b, now) - 1.0, updated := now)
  }

  datatype ScopeState = ScopeState(scope: Scope, bucket: Bucket)
  datatype LocalToken = LocalToken(scope: Scope, token: seq<u8>)
  datatype SourceBucket = SourceBucket(scope: Scope, source: IpAddress, bucket: Bucket)

  function FindScope(scopes: seq<ScopeState>, scope: Scope): (i: nat)
    ensures i <= |scopes| && (i < |scopes| ==> scopes[i].scope == scope)
    ensures forall j :: 0 <= j < i ==> scopes[j].scope != scope
  {
    if |scopes| == 0 || scopes[0].scope == scope then 0 else 1 + FindScope(scopes[1..], scope)
  }

  function FindLocal(locals: seq<LocalToken>, scope: Scope): (i: nat)
    ensures i <= |locals| && (i < |locals| ==> locals[i].scope == scope)
    ensures forall j :: 0 <= j < i ==> locals[j].scope != scope
  {
    if |locals| == 0 || locals[0].scope == scope then 0 else 1 + FindLocal(locals[1..], scope)
  }

  function FindSource(sources: seq<SourceBucket>, scope: Scope, source: IpAddress): (i: nat)
    ensures i <= |sources| && (i < |sources| ==> sources[i].scope == scope && sources[i].source == source)
    ensures forall j :: 0 <= j < i ==> sources[j].scope != scope || sources[j].source != source
  {
    if |sources| == 0 || (sources[0].scope == scope && sources[0].source == source) then 0
    else 1 + FindSource(sources[1..], scope, source)
  }

  function SourcesIn(sources: seq<SourceBucket>, scope: Scope): nat {
    if |sources| == 0 then 0
    else SourcesIn(sources[..|sources| - 1], scope) + if sources[|sources| - 1].scope == scope then 1 else 0
  }

  /** `std::erase_if` for the buckets idle at `now`. */
  function DropIdle(sources: seq<SourceBucket>, now: u64): (r: seq<SourceBucket>) {
    if |sources| == 0 then []
    else
      var front, last := DropIdle(sources[..|sources| - 1], now), sources[|sources| - 1];
      if now - last.bucket.updated >= SOURCE_BUCKET_IDLE then front else front + [last]
  }

  function KeepSources(sources: seq<SourceBucket>, scopes: seq<Scope>): seq<SourceBucket> {
    if |sources| == 0 then []
    else
      var front, last := KeepSources(sources[..|sources| - 1], scopes), sources[|sources| - 1];
      if BinarySearch(scopes, last.scope, ScopeLess) then front + [last] else front
  }

  function KeepLocals(locals: seq<LocalToken>, scopes: seq<Scope>): seq<LocalToken> {
    if |locals| == 0 then []
    else
      var front, last := KeepLocals(locals[..|locals| - 1], scopes), locals[|locals| - 1];
      if BinarySearch(scopes, last.scope, ScopeLess) then front + [last] else front
  }

  datatype Limits = Limits(global: Bucket, scopes: seq<ScopeState>, sources: seq<SourceBucket>)

  /** The source buckets with one for this source, if there is room for it. */
  function Track(sources: seq<SourceBucket>, scope: Scope, source: IpAddress, now: u64): (r: (seq<SourceBucket>, bool))
    ensures r.1 ==> FindSource(sources, scope, source) < |r.0|
  {
    if FindSource(sources, scope, source) < |sources| then (sources, true)
    else if |sources| >= MAX_SOURCE_BUCKETS || SourcesIn(sources, scope) >= MAX_SOURCE_BUCKETS_PER_SCOPE then
      (sources, false)
    else (sources + [SourceBucket(scope, source, FullBucket(8.0, 16.0, now))], true)
  }

  /** Take one token from each of the three buckets, or from none. */
  function Spend(l: Limits, s: nat, k: nat, now: u64): (Limits, bool)
    requires s < |l.scopes| && k < |l.sources|
  {
    var scope, own := l.scopes[s], l.sources[k];
    if Available(l.global, now) < 1.0 || Available(scope.bucket, now) < 1.0 || Available(own.bucket, now) < 1.0 then
      (l, false)
    else
      (Limits(Consume(l.global, now), l.scopes[s := scope.(bucket := Consume(scope.bucket, now))],
              l.sources[k := own.(bucket := Consume(own.bucket, now))]), true)
  }

  /** `Admit`: the buckets afterwards, and whether the datagram may be looked at. */
  function Admit(l: Limits, scope: Scope, source: IpAddress, now: u64): (Limits, bool) {
    var sources, s := DropIdle(l.sources, now), FindScope(l.scopes, scope);
    if s == |l.scopes| then (l.(sources := sources), false)
    else
      var (known, room) := Track(sources, scope, source, now);
      if !room then (l.(sources := known), false)
      else Spend(l.(sources := known), s, FindSource(sources, scope, source), now)
  }

  // ----- Metadata -----

  datatype Metadata = Metadata(observer: Scope, source: IpAddress, destination: IpAddress, port: u16,
                               eligible: bool, broadcast: bool, truncated: bool)

  predicate IsValidSource(m: Metadata) {
    && m.source.family == m.observer.family && m.destination.family == m.observer.family && !m.broadcast
    && var b := m.source.bytes;
       if m.source.family == Ipv4 then b[0] != 0 && b[0] != 127 && b[0] != 255 && (b[0] < 224 || b[0] > 239)
       else
         && !AllZero(b) && b[0] != 0xff
         && !(AllZero(b[..15]) && b[15] == 1)
         && !(AllZero(b[..10]) && b[10] == 0xff && b[11] == 0xff)
  }

  predicate IsDiscoveryDestination(m: Metadata) {
    m.port == DISCOVERY_PORT && m.destination.bytes == if m.destination.family == Ipv4 then IPV4_GROUP else IPV6_GROUP
  }

  // ----- The cache -----

  datatype Phase = Created | Running | Stopped

  datatype Cache = Cache(phase: Phase, now: u64, limits: Limits, locals: seq<LocalToken>, entries: seq<Entry>)

  function Initial(): Cache {
    Cache(Created, 0, Limits(Bucket(0.0, 0.0, 0.0, 0), [], []), [], [])
  }

  function Install(current: seq<ScopeState>, scopes: seq<Scope>, now: u64): (r: seq<ScopeState>)
    ensures |r| == |scopes| && forall i :: 0 <= i < |r| ==> r[i].scope == scopes[i]
  {
    if |scopes| == 0 then []
    else
      var scope, i := scopes[|scopes| - 1], FindScope(current, scopes[|scopes| - 1]);
      Install(current, scopes[..|scopes| - 1], now)
        + [if i < |current| then current[i] else ScopeState(scope, FullBucket(128.0, 256.0, now))]
  }

  function ScopeList(scopes: seq<ScopeState>): (r: seq<Scope>)
    ensures |r| == |scopes| && forall i :: 0 <= i < |r| ==> r[i] == scopes[i].scope
  {
    if |scopes| == 0 then [] else ScopeList(scopes[..|scopes| - 1]) + [scopes[|scopes| - 1].scope]
  }

  predicate HasScope(c: Cache, scope: Scope) {
    FindScope(c.limits.scopes, scope) < |c.limits.scopes|
  }

  predicate IsSelf(locals: seq<LocalToken>, scope: Scope, token: seq<u8>) {
    exists i :: 0 <= i < |locals| && locals[i] == LocalToken(scope, token)
  }

  datatype Command =
    | Start(scopes: seq<Scope>, now: u64)
    | Stop
    | SetLocalToken(scope: Scope, token: seq<u8>)
    | Receive(metadata: Metadata, payload: seq<u8>, now: u64)
    | Advance(now: u64)
    | ApplySnapshot(scopes: seq<Scope>, now: u64)
    | Wake(scopes: seq<Scope>, now: u64)

  datatype Outcome = Outcome(cache: Cache, events: seq<Event>)

  function Started(c: Cache, scopes: seq<Scope>, now: u64): Cache {
    Cache(Running, now,
          c.limits.(global := FullBucket(256.0, 512.0, now),
                    scopes := Install(c.limits.scopes, Canonical(scopes), now)), c.locals, c.entries)
  }

  function Halted(c: Cache): Cache {
    c.(phase := Stopped, limits := c.limits.(scopes := [], sources := []), locals := [], entries := [])
  }

  function WithLocal(locals: seq<LocalToken>, scope: Scope, token: seq<u8>): (seq<LocalToken>, bool) {
    var i := FindLocal(locals, scope);
    if i < |locals| then (locals[i := LocalToken(scope, token)], true)
    else if |locals| == MAX_SCOPES then (locals, false)
    else (locals + [LocalToken(scope, token)], true)
  }

  predicate Listening(c: Cache, now: u64) {
    c.phase == Running && now >= c.now
  }

  /** The cache once the time is taken over and expired tombstones are gone. */
  function AtTime(c: Cache, now: u64): Cache {
    c.(now := now, entries := Swept(EraseTombstones(now), c.entries))
  }

  predicate MetadataOk(c: Cache, m: Metadata) {
    m.eligible && HasScope(c, m.observer) && IsValidSource(m) && IsDiscoveryDestination(m)
  }

  /** What an admitted datagram does, or why it is dropped before the entries are looked at. */
  function Deliver(c: Cache, m: Metadata, payload: seq<u8>, valid: LabelValidator): Effect {
    if m.truncated then Drop(c.entries, DroppedTruncated)
    else
      match Parse(payload, valid)
      case Err(error) => Drop(c.entries, DroppedMalformed(error))
      case Ok(a) =>
        if IsSelf(c.locals, m.observer, a.token) then Drop(c.entries, DroppedSelf)
        else Message(c.entries, Key(m.observer, m.source, a.token), a, c.now)
  }

  function Received(c: Cache, m: Metadata, payload: seq<u8>, now: u64, valid: LabelValidator): (Cache, Effect) {
    if c.phase != Running then (c, Drop(c.entries, DroppedStopped))
    else if now < c.now then (c, Drop(c.entries, DroppedClockRegression))
    else
      var c1 := AtTime(c, now);
      if !MetadataOk(c1, m) then (c1, Drop(c1.entries, DroppedMetadata))
      else
        var (limits, ok) := Admit(c1.limits, m.observer, m.source, now);
        if !ok then (c1.(limits := limits), Drop(c1.entries, DroppedRateLimit))
        else
          var effect := Deliver(c1, m, payload, valid);
          (c1.(limits := limits, entries := effect.entries), effect)
  }

  function Advanced(c: Cache, now: u64): Outcome {
    var buried := Swept(BuryDue(now), c.entries);
    Outcome(c.(now := now, entries := Swept(EraseTombstones(now), buried)), Expiries(BuryDue(now), c.entries))
  }

  /** Leave the scopes that are not in `scopes` and take up those that are. */
  function Rescoped(c: Cache, scopes: seq<Scope>): Cache {
    c.(limits := c.limits.(scopes := Install(c.limits.scopes, scopes, c.now),
                           sources := KeepSources(c.limits.sources, scopes)),
       locals := KeepLocals(c.locals, scopes),
       entries := Swept(DropAbsent(scopes), c.entries))
  }

  function Snapshotted(c: Cache, scopes: seq<Scope>, now: u64): Outcome {
    var c1, canonical := AtTime(c, now), Canonical(scopes);
    Outcome(Rescoped(c1, canonical), Expiries(DropAbsent(canonical), c1.entries))
  }

  function Woken(c: Cache, scopes: seq<Scope>, now: u64): Outcome {
    var c1, canonical := AtTime(c, now), Canonical(scopes);
    var buried := Swept(BuryAll(now), c1.entries);
    Outcome(Rescoped(c1.(entries := buried), canonical).(locals := []),
            Expiries(BuryAll(now), c1.entries) + Expiries(DropAbsent(canonical), buried))
  }

  function Step(c: Cache, command: Command, valid: LabelValidator): Outcome {
    match command
    case Start(scopes, now) => Outcome(if c.phase == Created then Started(c, scopes, now) else c, [])
    case Stop => Outcome(Halted(c), [])
    case SetLocalToken(scope, token) =>
      Outcome(if c.phase != Running || AllZero(token) || !HasScope(c, scope) then c
              else c.(locals := WithLocal(c.locals, scope, token).0), [])
    case Receive(m, payload, now) =>
      var (c', effect) := Received(c, m, payload, now, valid);
      Outcome(c', effect.events)
    case Advance(now) => if Listening(c, now) then Advanced(c, now) else Outcome(c, [])
    case ApplySnapshot(scopes, now) => if Listening(c, now) then Snapshotted(c, scopes, now) else Outcome(c, [])
    case Wake(scopes, now) => if Listening(c, now) then Woken(c, scopes, now) else Outcome(c, [])
  }

  // ----- The invariant -----

  ghost predicate Capped(entries: seq<Entry>) {
    forall tally: Tally :: Total(tally, entries) <= Cap(tally)
  }

  predicate WellShaped(e: Entry) {
    if e.candidate then 0 < |e.raw| <= MAX_DATAGRAM_SIZE && e.retainUntil == 0
    else e.raw == [] && e.value.port == 0 && e.value.name == [] && e.value.deadline == 0
  }

  ghost predicate EntriesOk(entries: seq<Entry>, scopes: seq<Scope>) {
    && UniqueKeys(entries) && Capped(entries)
    && forall e :: e in entries ==> WellShaped(e) && e.value.key.observer in scopes
  }

  ghost predicate ScopesOk(scopes: seq<ScopeState>, now: u64) {
    && |scopes| <= MAX_SCOPES && Sorted(ScopeList(scopes), ScopeLess)
    && forall i :: 0 <= i < |scopes| ==> scopes[i].bucket.updated <= now
  }

  ghost predicate LocalsOk(locals: seq<LocalToken>, scopes: seq<Scope>) {
    && (forall i, j :: 0 <= i < j < |locals| ==> locals[i].scope != locals[j].scope)
    && forall i :: 0 <= i < |locals| ==> locals[i].scope in scopes && !AllZero(locals[i].token)
  }

  ghost predicate SourcesOk(sources: seq<SourceBucket>, scopes: seq<Scope>, now: u64) {
    && |sources| <= MAX_SOURCE_BUCKETS
    && (forall scope: Scope :: SourcesIn(sources, scope) <= MAX_SOURCE_BUCKETS_PER_SCOPE)
    && (forall i, j :: 0 <= i < j < |sources| ==>
          sources[i].scope != sources[j].scope || sources[i].source != sources[j].source)
    && forall i :: 0 <= i < |sources| ==> sources[i].scope in scopes && sources[i].bucket.updated <= now
  }

  ghost predicate Inv(c: Cache) {
    var scopes := ScopeList(c.limits.scopes);
    && ScopesOk(c.limits.scopes, c.now)
    && EntriesOk(c.entries, scopes)
    && LocalsOk(c.locals, scopes)
    && SourcesOk(c.limits.sources, scopes, c.now)
    && c.limits.global.updated <= c.now
    && (c.phase != Running ==> c.limits.scopes == [] && c.limits.sources == [] && c.locals == [] && c.entries == [])
    && (c.phase == Created ==> c.now == 0)
  }
}
