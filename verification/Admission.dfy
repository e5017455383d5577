/** Pairing admission as a function of its state: owners and their windows, handshake
    reservations, and the binding of authenticated connections. */
module Admission {
  import opened Common
  import opened ByteOrder
  import opened AdmissionBuckets

  const MAX_INCOMPLETE := 8
  const MAX_INCOMPLETE_PER_SOURCE := 2
  const RESERVED_USER_SLOTS := 1
  const MAX_VISIBLE := 1
  const MAX_TRACKED_SOURCES := 64
  const MAX_WINDOW := 120_000

  datatype Role = Initiator | Responder | Unspecified

  datatype Entry = Entry(id: seq<u8>, lease: u64, owner: u64, source: seq<u8>, localKey: seq<u8>, peerKey: seq<u8>,
                         role: Role, user: bool, visible: bool, bound: bool, admittedAt: u64, windowDeadline: u64)

  datatype Owner = Owner(generation: u64, windowGeneration: u64, windowEnabled: bool, windowDeadline: u64)

  datatype SourceBucket = SourceBucket(source: seq<u8>, bucket: Bucket)

  datatype State = State(initialized: bool, global: Bucket, nextLease: u64, nextOwner: u64, nextWindow: u64,
                         buckets: seq<SourceBucket>, entries: seq<Entry>, owners: seq<Owner>)

  datatype Request = Request(id: seq<u8>, source: seq<u8>, user: bool, localKey: seq<u8>, peerKey: seq<u8>, role: Role,
                             now: u64)

  function Initial(): State {
    State(false, Bucket(0, 0), 1, 1, 1, [], [], [])
  }

  /** A generation counter that stops at zero once it wraps. */
  function Next(generation: u64): u64 {
    if generation == U64_MAX then 0 else generation + 1
  }

  // ----- Entries -----

  function Find(entries: seq<Entry>, id: seq<u8>): (i: nat)
    ensures i <= |entries| && (i < |entries| ==> entries[i].id == id)
    ensures forall j :: 0 <= j < i ==> entries[j].id != id
  {
    if |entries| == 0 || entries[0].id == id then 0 else 1 + Find(entries[1..], id)
  }

  predicate Holds(entries: seq<Entry>, id: seq<u8>, lease: u64) {
    var i := Find(entries, id);
    i < |entries| && entries[i].lease == lease
  }

  function FindOwner(owners: seq<Owner>, generation: u64): (i: nat)
    ensures i <= |owners| && (i < |owners| ==> owners[i].generation == generation)
    ensures forall j :: 0 <= j < i ==> owners[j].generation != generation
  {
    if |owners| == 0 || owners[0].generation == generation then 0 else 1 + FindOwner(owners[1..], generation)
  }

  /** Which entries a removal takes. */
  datatype Which = ById(id: seq<u8>) | ByLease(id: seq<u8>, lease: u64) | BoundOf(owner: u64) | AllOf(owner: u64)

  predicate Picks(which: Which, e: Entry) {
    match which
    case ById(id) => e.id == id
    case ByLease(id, lease) => e.id == id && e.lease == lease
    case BoundOf(owner) => e.owner == owner && e.bound
    case AllOf(owner) => e.owner == owner
  }

  /** `std::remove_if` and `erase`. */
  function Without(entries: seq<Entry>, which: Which): (r: seq<Entry>)
    ensures |r| <= |entries|
  {
    if |entries| == 0 then []
    else
      var front, last := Without(entries[..|entries| - 1], which), entries[|entries| - 1];
      if Picks(which, last) then front else front + [last]
  }

  function WithoutOwner(owners: seq<Owner>, generation: u64): seq<Owner> {
    if |owners| == 0 then []
    else
      var front, last := WithoutOwner(owners[..|owners| - 1], generation), owners[|owners| - 1];
      if last.generation == generation then front else front + [last]
  }

  datatype Tally = NonUser | FromSource(source: seq<u8>) | VisibleOf(owner: u64)

  predicate Counts(tally: Tally, e: Entry) {
    match tally
    case NonUser => !e.user
    case FromSource(source) => e.source == source
    case VisibleOf(owner) => e.owner == owner && e.visible
  }

  /** `std::count_if`. */
  function Count(tally: Tally, entries: seq<Entry>): nat {
    if |entries| == 0 then 0
    else Count(tally, entries[..|entries| - 1]) + if Counts(tally, entries[|entries| - 1]) then 1 else 0
  }

  // ----- Source buckets -----

  function FindBucket(buckets: seq<SourceBucket>, source: seq<u8>): (i: nat)
    ensures i <= |buckets| && (i < |buckets| ==> buckets[i].source == source)
    ensures forall j :: 0 <= j < i ==> buckets[j].source != source
  {
    if |buckets| == 0 || buckets[0].source == source then 0 else 1 + FindBucket(buckets[1..], source)
  }

  function Refilled(b: SourceBucket, now: u64): SourceBucket {
    b.(bucket := Refill(b.bucket, now, PerSource))
  }

  function RefillAll(buckets: seq<SourceBucket>, now: u64): (r: seq<SourceBucket>)
    ensures |r| == |buckets| && forall i :: 0 <= i < |r| ==> r[i] == Refilled(buckets[i], now)
  {
    seq(|buckets|, i requires 0 <= i < |buckets| => Refilled(buckets[i], now))
  }

  predicate Idle(b: SourceBucket, entries: seq<Entry>) {
    b.bucket.tokens == Capacity(PerSource) && Count(FromSource(b.source), entries) == 0
  }

  function DropIdle(buckets: seq<SourceBucket>, entries: seq<Entry>): seq<SourceBucket> {
    if |buckets| == 0 then []
    else
      var front, last := DropIdle(buckets[..|buckets| - 1], entries), buckets[|buckets| - 1];
      if Idle(last, entries) then front else front + [last]
  }

  /** `PruneSourceBuckets`. */
  function Pruned(buckets: seq<SourceBucket>, entries: seq<Entry>, now: u64): seq<SourceBucket> {
    DropIdle(RefillAll(buckets, now), entries)
  }

  // ----- Owners and windows -----

  function RegisterOwner(s: State): (State, u64) {
    if s.nextOwner == 0 then (s, 0)
    else (s.(owners := s.owners + [Owner(s.nextOwner, 0, false, 0)], nextOwner := Next(s.nextOwner)), s.nextOwner)
  }

  function RetireOwner(s: State, owner: u64): State {
    if owner == 0 then s
    else s.(entries := Without(s.entries, AllOf(owner)), owners := WithoutOwner(s.owners, owner))
  }

  function Initialized(s: State, now: u64): State {
    if s.initialized then s else s.(initialized := true, global := Full(WholeProcess, now))
  }

  function OpenWindow(s: State, owner: u64, now: u64, duration: u64): (State, bool) {
    var i := FindOwner(s.owners, owner);
    if duration == 0 || duration > MAX_WINDOW || i == |s.owners|
       || (s.owners[i].windowEnabled && now < s.owners[i].windowDeadline) || s.nextWindow == 0 then (s, false)
    else
      (Initialized(s, now).(owners := s.owners[i := Owner(owner, s.nextWindow, true, SaturatingAdd(now, duration))],
                            nextWindow := Next(s.nextWindow)), true)
  }

  function CloseWindow(s: State, owner: u64): State {
    var i := FindOwner(s.owners, owner);
    if i == |s.owners| then s
    else s.(owners := s.owners[i := s.owners[i].(windowEnabled := false)],
            entries := Without(s.entries, BoundOf(owner)))
  }

  // ----- Reservations -----

  /** The buckets brought up to the present. */
  function Prepared(s: State, now: u64): (r: State)
    ensures r.initialized
  {
    var t := Initialized(s, now);
    t.(global := Refill(t.global, now, WholeProcess), buckets := Pruned(t.buckets, t.entries, now))
  }

  /** Too many handshakes are under way for one more. */
  predicate Crowded(entries: seq<Entry>, source: seq<u8>, user: bool) {
    || |entries| >= MAX_INCOMPLETE
    || (!user && Count(NonUser, entries) >= MAX_INCOMPLETE - RESERVED_USER_SLOTS)
    || Count(FromSource(source), entries) >= MAX_INCOMPLETE_PER_SOURCE
  }

  function NewEntry(s: State, owner: u64, id: seq<u8>, source: seq<u8>, user: bool, now: u64): Entry {
    Entry(id, s.nextLease, owner, source, [], [], Initiator, user, false, false, now, 0)
  }

  /** The state with a bucket for `source`, if one may be made. */
  function Tracked(s: State, source: seq<u8>, now: u64): Option<State> {
    if FindBucket(s.buckets, source) < |s.buckets| then Some(s)
    else if |s.buckets| == MAX_TRACKED_SOURCES then None
    else Some(s.(buckets := s.buckets + [SourceBucket(source, Full(PerSource, now))]))
  }

  function Taken(b: SourceBucket): SourceBucket
    requires b.bucket.tokens > 0
  {
    b.(bucket := b.bucket.(tokens := b.bucket.tokens - 1))
  }

  /** Give out the lease and take one token from each bucket. */
  function Grant(s: State, k: nat, e: Entry): State
    requires k < |s.buckets| && s.global.tokens > 0 && s.buckets[k].bucket.tokens > 0
  {
    s.(entries := s.entries + [e], nextLease := Next(s.nextLease),
       global := s.global.(tokens := s.global.tokens - 1),
       buckets := s.buckets[k := Taken(s.buckets[k])])
  }

  /** `ReserveHandshake` on a state whose buckets are up to date. */
  function ReservePrepared(s: State, owner: u64, id: seq<u8>, source: seq<u8>, user: bool,
                           now: u64): (State, Option<u64>) {
    if Crowded(s.entries, source, user) || s.global.tokens == 0 then (s, None)
    else
      var tracked := Tracked(s, source, now);
      if tracked.None? then (s, None)
      else
        var t := tracked.value;
        var k := FindBucket(t.buckets, source);
        if k == |t.buckets| || t.buckets[k].bucket.tokens == 0 || t.nextLease == 0 then (t, None)
        else (Grant(t, k, NewEntry(t, owner, id, source, user, now)), Some(t.nextLease))
  }

  function Reserve(s: State, owner: u64, id: seq<u8>, source: seq<u8>, user: bool, now: u64): (State, Option<u64>) {
    if FindOwner(s.owners, owner) == |s.owners| || AllZero(id) || AllZero(source)
       || Find(s.entries, id) < |s.entries| then
      (s, None)
    else ReservePrepared(Prepared(s, now), owner, id, source, user, now)
  }

  // ----- Binding -----

  predicate SameKeyPair(e: Entry, localKey: seq<u8>, peerKey: seq<u8>) {
    (e.localKey == localKey && e.peerKey == peerKey) || (e.localKey == peerKey && e.peerKey == localKey)
  }

  function InitiatorKey(role: Role, localKey: seq<u8>, peerKey: seq<u8>): seq<u8> {
    if role == Initiator then localKey else peerKey
  }

  function EntryInitiator(e: Entry): seq<u8> {
    InitiatorKey(e.role, e.localKey, e.peerKey)
  }

  /** `std::min` on keys. */
  function Smaller(a: seq<u8>, b: seq<u8>): seq<u8> {
    if BytesLess(b, a) then b else a
  }

  predicate IsRole(role: Role) {
    role == Initiator || role == Responder
  }

  /** The entry competes with the request for the same pair of keys. */
  predicate Competes(e: Entry, owner: u64, request: Request) {
    e.owner == owner && e.bound && SameKeyPair(e, request.localKey, request.peerKey)
  }

  /** The first competing entry other than the one at `reserved`, or the length. */
  function FindDuplicate(entries: seq<Entry>, reserved: nat, owner: u64, request: Request, from: nat): (i: nat)
    requires from <= |entries|
    ensures from <= i <= |entries| && (i < |entries| ==> i != reserved && Competes(entries[i], owner, request))
    ensures forall j :: from <= j < i ==> j == reserved || !Competes(entries[j], owner, request)
    decreases |entries| - from
  {
    if from == |entries| || (from != reserved && Competes(entries[from], owner, request)) then from
    else FindDuplicate(entries, reserved, owner, request, from + 1)
  }

  datatype BindResult = Busy | CertificateRejected | Bound(displaced: Option<seq<u8>>)

  /** The reservation, its owner's window and the request fit together. */
  predicate MayBind(s: State, owner: u64, id: seq<u8>, lease: u64, request: Request, window: u64) {
    && Holds(s.entries, id, lease) && FindOwner(s.owners, owner) < |s.owners|
    && var e, o := s.entries[Find(s.entries, id)], s.owners[FindOwner(s.owners, owner)];
       && !e.bound && e.owner == owner && e.id == request.id && e.source == request.source && e.user == request.user
       && o.windowEnabled && request.now < o.windowDeadline && window != 0 && window == o.windowGeneration
  }

  function BoundEntry(e: Entry, request: Request, deadline: u64): Entry {
    e.(localKey := request.localKey, peerKey := request.peerKey, role := request.role, windowDeadline := deadline,
       bound := true)
  }

  /** A competing connection keeps its place unless it is hidden, the two cross, and the new one was initiated by the
      smaller key. */
  predicate Yields(e: Entry, request: Request) {
    var candidate := InitiatorKey(request.role, request.localKey, request.peerKey);
    !e.visible && EntryInitiator(e) != candidate && candidate == Smaller(request.localKey, request.peerKey)
  }

  /** `Bind`. A lease that is not bound is given up with it. */
  function Bind(s: State, owner: u64, id: seq<u8>, lease: u64, request: Request, window: u64): (State, BindResult) {
    var released := s.(entries := Without(s.entries, ByLease(id, lease)));
    if !MayBind(s, owner, id, lease, request, window) then (released, Busy)
    else if !IsRole(request.role) || request.localKey == request.peerKey then (released, CertificateRejected)
    else
      var i := Find(s.entries, id);
      var d := FindDuplicate(s.entries, i, owner, request, 0);
      if d < |s.entries| && !Yields(s.entries[d], request) then (released, Busy)
      else
        var deadline := s.owners[FindOwner(s.owners, owner)].windowDeadline;
        var entries := s.entries[i := BoundEntry(s.entries[i], request, deadline)];
        if d == |s.entries| then (s.(entries := entries), Bound(None))
        else (s.(entries := Without(entries, ById(entries[d].id))), Bound(Some(entries[d].id)))
  }

  function MarkVisible(s: State, id: seq<u8>, lease: u64): (State, bool) {
    var i := Find(s.entries, id);
    if !Holds(s.entries, id, lease) || !s.entries[i].bound then (s, false)
    else if s.entries[i].visible then (s, true)
    else if Count(VisibleOf(s.entries[i].owner), s.entries) == MAX_VISIBLE then (s, false)
    else (s.(entries := s.entries[i := s.entries[i].(visible := true)]), true)
  }

  // ----- Steps -----

  datatype Command =
    | Register
    | Retire(owner: u64)
    | Open(owner: u64, now: u64, duration: u64)
    | Close(owner: u64)
    | Reserving(owner: u64, id: seq<u8>, source: seq<u8>, user: bool, now: u64)
    | Binding(owner: u64, id: seq<u8>, lease: u64, request: Request, window: u64)
    | Showing(id: seq<u8>, lease: u64)
    | Releasing(id: seq<u8>, lease: u64)

  function Step(s: State, command: Command): State {
    match command
    case Register => RegisterOwner(s).0
    case Retire(owner) => RetireOwner(s, owner)
    case Open(owner, now, duration) => OpenWindow(s, owner, now, duration).0
    case Close(owner) => CloseWindow(s, owner)
    case Reserving(owner, id, source, user, now) => Reserve(s, owner, id, source, user, now).0
    case Binding(owner, id, lease, request, window) => Bind(s, owner, id, lease, request, window).0
    case Showing(id, lease) => MarkVisible(s, id, lease).0
    case Releasing(id, lease) => s.(entries := Without(s.entries, ByLease(id, lease)))
  }

  /** The state after a run of commands. */
  function Execute(s: State, commands: seq<Command>): State
    decreases |commands|
  {
    if |commands| == 0 then s else Execute(Step(s, commands[0]), commands[1..])
  }
}
