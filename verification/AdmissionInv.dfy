/** What every operation of pairing admission keeps, and how crossing connections are settled. */
module AdmissionInv {
  import opened Common
  import opened ByteOrder
  import opened AdmissionBuckets
  import opened Admission

  /** Two entries that may stand together: distinct identities, and not both bound to one pair of keys. */
  predicate Together(a: Entry, b: Entry) {
    a.id != b.id && a.lease != b.lease
      && !(a.bound && b.bound && a.owner == b.owner && SameKeyPair(a, b.localKey, b.peerKey))
  }

  predicate Sound(e: Entry) {
    (e.visible ==> e.bound) && (e.bound ==> e.localKey != e.peerKey && IsRole(e.role))
  }

  function Limit(tally: Tally): nat {
    match tally
    case NonUser => MAX_INCOMPLETE - RESERVED_USER_SLOTS
    case FromSource(_) => MAX_INCOMPLETE_PER_SOURCE
    case VisibleOf(_) => MAX_VISIBLE
  }

  ghost predicate Apart(entries: seq<Entry>) {
    forall i, j :: 0 <= i < j < |entries| ==> Together(entries[i], entries[j])
  }

  ghost predicate Limited(entries: seq<Entry>) {
    |entries| <= MAX_INCOMPLETE && forall tally: Tally :: Count(tally, entries) <= Limit(tally)
  }

  ghost predicate Leased(entries: seq<Entry>, nextLease: u64) {
    forall e :: e in entries ==> Sound(e) && 1 <= e.lease && (nextLease != 0 ==> e.lease < nextLease)
  }

  ghost predicate Owned(entries: seq<Entry>, owners: seq<Owner>) {
    forall e :: e in entries ==> FindOwner(owners, e.owner) < |owners|
  }

  ghost predicate Backed(entries: seq<Entry>, buckets: seq<SourceBucket>) {
    |buckets| <= MAX_TRACKED_SOURCES && forall e :: e in entries ==> FindBucket(buckets, e.source) < |buckets|
  }

  ghost predicate OwnersOk(owners: seq<Owner>, nextOwner: u64) {
    && (forall i, j :: 0 <= i < j < |owners| ==> owners[i].generation != owners[j].generation)
    && forall i :: 0 <= i < |owners| ==>
      1 <= owners[i].generation && (nextOwner != 0 ==> owners[i].generation < nextOwner)
  }

  ghost predicate Inv(s: State) {
    && Apart(s.entries) && Limited(s.entries) && Leased(s.entries, s.nextLease)
    && Owned(s.entries, s.owners) && Backed(s.entries, s.buckets) && OwnersOk(s.owners, s.nextOwner)
  }

  // ----- Removal -----

  lemma {:induction false} WithoutFrom(entries: seq<Entry>, which: Which)
    ensures forall e :: e in Without(entries, which) <==> e in entries && !Picks(which, e)
  {
    if |entries| > 0 {
      WithoutFrom(entries[..|entries| - 1], which);
      assert entries == entries[..|entries| - 1] + [entries[|entries| - 1]];
    }
  }

  lemma {:induction false} WithoutApart(entries: seq<Entry>, which: Which)
    requires forall i, j :: 0 <= i < j < |entries| && !Picks(which, entries[i]) && !Picks(which, entries[j]) ==>
               Together(entries[i], entries[j])
    ensures Apart(Without(entries, which))
  {
    if |entries| > 0 {
      var front, last := entries[..|entries| - 1], entries[|entries| - 1];
      assert forall i :: 0 <= i < |front| ==> front[i] == entries[i];
      WithoutApart(front, which);
      WithoutFrom(front, which);
      var kept := Without(front, which);
      if !Picks(which, last) {
        forall i | 0 <= i < |kept| ensures Together(kept[i], last) {
          assert kept[i] in kept;
          var k :| 0 <= k < |front| && front[k] == kept[i];
          assert Together(entries[k], entries[|entries| - 1]);
        }
      }
    }
  }

  lemma {:induction false} WithoutCount(tally: Tally, entries: seq<Entry>, which: Which)
    ensures Count(tally, Without(entries, which)) <= Count(tally, entries)
  {
    if |entries| > 0 {
      var front, last := entries[..|entries| - 1], entries[|entries| - 1];
      WithoutCount(tally, front, which);
      assert (Without(front, which) + [last])[..|Without(front, which)|] == Without(front, which);
    }
  }

  lemma WithoutLimited(entries: seq<Entry>, which: Which)
    requires Limited(entries)
    ensures Limited(Without(entries, which))
  {
    forall tally: Tally ensures Count(tally, Without(entries, which)) <= Limit(tally) {
      WithoutCount(tally, entries, which);
    }
  }

  /** Removing entries keeps the invariant. */
  lemma WithoutInv(s: State, which: Which)
    requires Inv(s)
    ensures Inv(s.(entries := Without(s.entries, which)))
  {
    hide Count, FindOwner, FindBucket, Without;
    WithoutApart(s.entries, which);
    WithoutLimited(s.entries, which);
    WithoutFrom(s.entries, which);
  }

  // ----- Counting -----

  lemma CountAppend(tally: Tally, entries: seq<Entry>, e: Entry)
    ensures Count(tally, entries + [e]) == Count(tally, entries) + if Counts(tally, e) then 1 else 0
  {
    assert (entries + [e])[..|entries|] == entries;
  }

  lemma {:induction false} CountUpdate(tally: Tally, entries: seq<Entry>, i: nat, e: Entry)
    requires i < |entries|
    ensures Count(tally, entries[i := e]) + (if Counts(tally, entries[i]) then 1 else 0) ==
            Count(tally, entries) + if Counts(tally, e) then 1 else 0
  {
    var n := |entries| - 1;
    if i < n {
      CountUpdate(tally, entries[..n], i, e);
      assert entries[i := e][..n] == entries[..n][i := e];
    } else {
      assert entries[i := e][..n] == entries[..n];
    }
  }

  // ----- Steps -----

  lemma {:induction false} WithoutOwnerOk(owners: seq<Owner>, generation: u64, nextOwner: u64)
    requires OwnersOk(owners, nextOwner)
    ensures OwnersOk(WithoutOwner(owners, generation), nextOwner)
    ensures forall o :: o in WithoutOwner(owners, generation) <==> o in owners && o.generation != generation
  {
    if |owners| > 0 {
      var front, last := owners[..|owners| - 1], owners[|owners| - 1];
      assert forall i :: 0 <= i < |front| ==> front[i] == owners[i];
      WithoutOwnerOk(front, generation, nextOwner);
      var kept := WithoutOwner(front, generation);
      assert owners == front + [last];
      forall i | 0 <= i < |kept| ensures kept[i].generation != last.generation {
        assert kept[i] in front;
      }
    }
  }

  lemma OwnerPresent(owners: seq<Owner>, generation: u64)
    ensures FindOwner(owners, generation) < |owners| <==> exists o :: o in owners && o.generation == generation
  {
    var k := FindOwner(owners, generation);
    if k < |owners| {
      assert owners[k] in owners;
    }
  }

  lemma RetireInv(s: State, owner: u64)
    requires Inv(s)
    ensures Inv(RetireOwner(s, owner))
  {
    WithoutInv(s, AllOf(owner));
    WithoutOwnerOk(s.owners, owner, s.nextOwner);
    WithoutFrom(s.entries, AllOf(owner));
    var owners := WithoutOwner(s.owners, owner);
    hide Without, WithoutOwner, FindOwner, FindBucket, Count;
    forall e | e in Without(s.entries, AllOf(owner)) ensures FindOwner(owners, e.owner) < |owners| {
      OwnerPresent(s.owners, e.owner);
      var o :| o in s.owners && o.generation == e.owner;
      assert o in owners;
      OwnerPresent(owners, e.owner);
    }
  }

  /** Changing an owner's window keeps the invariant. */
  lemma OwnerInv(s: State, i: nat, o: Owner)
    requires Inv(s) && i < |s.owners| && o.generation == s.owners[i].generation
    ensures Inv(s.(owners := s.owners[i := o]))
  {
    var owners := s.owners[i := o];
    forall e | e in s.entries ensures FindOwner(owners, e.owner) < |owners| {
      var k := FindOwner(s.owners, e.owner);
      assert owners[k].generation == e.owner;
    }
  }

  lemma RegisterInv(s: State)
    requires Inv(s)
    ensures Inv(RegisterOwner(s).0)
  {
    var owners := RegisterOwner(s).0.owners;
    forall e | e in s.entries ensures FindOwner(owners, e.owner) < |owners| {
      var k := FindOwner(s.owners, e.owner);
      assert owners[k] == s.owners[k];
    }
  }

  lemma UpdateApart(entries: seq<Entry>, i: nat, e: Entry)
    requires Apart(entries) && i < |entries| && e.id == entries[i].id && e.lease == entries[i].lease
    requires forall j :: 0 <= j < |entries| && j != i ==> Together(entries[j], e)
    ensures Apart(entries[i := e])
  {
    var after := entries[i := e];
    forall j, k | 0 <= j < k < |after| ensures Together(after[j], after[k]) {
      if j == i {
        assert Together(entries[k], e);
      }
    }
  }

  /** Putting `e` in the place of an entry with its identity, owner and source. */
  predicate Replaces(e: Entry, was: Entry) {
    e.id == was.id && e.lease == was.lease && e.owner == was.owner && e.source == was.source && e.user == was.user
      && Sound(e)
  }

  lemma ReplaceLimited(entries: seq<Entry>, i: nat, e: Entry)
    requires Limited(entries) && i < |entries| && Replaces(e, entries[i])
    requires e.visible && !entries[i].visible ==> Count(VisibleOf(e.owner), entries) < MAX_VISIBLE
    ensures Limited(entries[i := e])
  {
    forall tally: Tally ensures Count(tally, entries[i := e]) <= Limit(tally) {
      CountUpdate(tally, entries, i, e);
      assert Count(tally, entries) <= Limit(tally);
    }
  }

  /** Apart from standing together with the others, a replacement keeps everything. */
  lemma ReplaceRest(s: State, i: nat, e: Entry)
    requires Inv(s) && i < |s.entries| && Replaces(e, s.entries[i])
    ensures var after := s.entries[i := e];
            Leased(after, s.nextLease) && Owned(after, s.owners) && Backed(after, s.buckets)
  {
    var after := s.entries[i := e];
    assert s.entries[i] in s.entries;
    forall x | x in after ensures x == e || x in s.entries {
      var k :| 0 <= k < |after| && after[k] == x;
    }
    hide FindOwner, FindBucket, Count;
  }

  lemma ReplaceInv(s: State, i: nat, e: Entry)
    requires Inv(s) && i < |s.entries| && Replaces(e, s.entries[i])
    requires e.visible && !s.entries[i].visible ==> Count(VisibleOf(e.owner), s.entries) < MAX_VISIBLE
    requires forall j :: 0 <= j < |s.entries| && j != i ==> Together(s.entries[j], e)
    ensures Inv(s.(entries := s.entries[i := e]))
  {
    UpdateApart(s.entries, i, e);
    ReplaceLimited(s.entries, i, e);
    ReplaceRest(s, i, e);
    hide Apart, Limited, Leased, Owned, Backed;
  }

  lemma Others(entries: seq<Entry>, i: nat, j: nat)
    requires Apart(entries) && i < |entries| && j < |entries| && i != j
    ensures Together(entries[i], entries[j])
  {
    assert i > j ==> Together(entries[j], entries[i]);
  }

  lemma ShowInv(s: State, id: seq<u8>, lease: u64)
    requires Inv(s)
    ensures Inv(MarkVisible(s, id, lease).0)
  {
    var i := Find(s.entries, id);
    hide Limited, Owned, Backed, OwnersOk, Count;
    if MarkVisible(s, id, lease).0 != s {
      var e := s.entries[i].(visible := true);
      assert s.entries[i] in s.entries;
      forall j | 0 <= j < |s.entries| && j != i ensures Together(s.entries[j], e) {
        Others(s.entries, j, i);
      }
      CountBelow(s.entries, VisibleOf(e.owner));
      ReplaceInv(s, i, e);
    }
  }

  lemma CountBelow(entries: seq<Entry>, tally: Tally)
    requires Limited(entries)
    ensures Count(tally, entries) <= Limit(tally)
  {
  }

  // ----- Binding -----

  /** There is one competing entry at most. */
  lemma OneCompetitor(entries: seq<Entry>, i: nat, owner: u64, request: Request, d: nat, j: nat)
    requires Apart(entries) && i < |entries| && d == FindDuplicate(entries, i, owner, request, 0) && j < |entries|
    requires j != i
    requires Competes(entries[j], owner, request)
    ensures j == d
  {
    if j != d {
      Others(entries, d, j);
      assert false;
    }
  }

  lemma BoundTogether(entries: seq<Entry>, i: nat, owner: u64, request: Request, deadline: u64, d: nat, j: nat)
    requires Apart(entries) && i < |entries| && d == FindDuplicate(entries, i, owner, request, 0) && j < |entries|
    requires j != i && j != d && entries[i].owner == owner
    ensures Together(entries[j], BoundEntry(entries[i], request, deadline))
    ensures Together(BoundEntry(entries[i], request, deadline), entries[j])
  {
    Others(entries, i, j);
    if Competes(entries[j], owner, request) {
      OneCompetitor(entries, i, owner, request, d, j);
    }
  }

  lemma DisplaceInv(s: State, i: nat, e: Entry, d: nat)
    requires Inv(s) && i < |s.entries| && d < |s.entries| && d != i && Replaces(e, s.entries[i]) && !e.visible
    requires forall j :: 0 <= j < |s.entries| && j != i && j != d ==>
             Together(s.entries[j], e) && Together(e, s.entries[j])
    ensures Inv(s.(entries := Without(s.entries[i := e], ById(s.entries[d].id))))
  {
    var after, which := s.entries[i := e], ById(s.entries[d].id);
    ReplaceLimited(s.entries, i, e);
    ReplaceRest(s, i, e);
    forall j, k | 0 <= j < k < |after| && !Picks(which, after[j]) && !Picks(which, after[k])
      ensures Together(after[j], after[k])
    {
      assert j != d && k != d;
    }
    hide Limited, FindOwner, FindBucket, Without, Apart, OwnersOk;
    WithoutApart(after, which);
    WithoutLimited(after, which);
    WithoutFrom(after, which);
  }

  lemma BindInv(s: State, owner: u64, id: seq<u8>, lease: u64, request: Request, window: u64)
    requires Inv(s)
    ensures Inv(Bind(s, owner, id, lease, request, window).0)
  {
    hide Limited, Owned, Backed, OwnersOk, Count, Without, FindOwner;
    WithoutInv(s, ByLease(id, lease));
    if Bind(s, owner, id, lease, request, window).1.Bound? {
      var i := Find(s.entries, id);
      var d := FindDuplicate(s.entries, i, owner, request, 0);
      var e := BoundEntry(s.entries[i], request, s.owners[FindOwner(s.owners, owner)].windowDeadline);
      assert s.entries[i] in s.entries;
      forall j | 0 <= j < |s.entries| && j != i && j != d
        ensures Together(s.entries[j], e) && Together(e, s.entries[j])
      {
        BoundTogether(s.entries, i, owner, request, e.windowDeadline, d, j);
      }
      if d == |s.entries| {
        ReplaceInv(s, i, e);
      } else {
        DisplaceInv(s, i, e, d);
      }
    }
  }

  // ----- Reservations -----

  lemma {:induction false} CountPositive(entries: seq<Entry>, e: Entry)
    requires e in entries
    ensures Count(FromSource(e.source), entries) > 0
  {
    var front, last := entries[..|entries| - 1], entries[|entries| - 1];
    if last != e {
      assert entries == front + [last];
      CountPositive(front, e);
    }
  }

  /** Buckets of active sources survive pruning. */
  lemma {:induction false} ActiveKept(buckets: seq<SourceBucket>, entries: seq<Entry>, source: seq<u8>)
    requires Count(FromSource(source), entries) > 0 && exists b :: b in buckets && b.source == source
    ensures exists b :: b in DropIdle(buckets, entries) && b.source == source
    ensures |DropIdle(buckets, entries)| <= |buckets|
  {
    var front, last := buckets[..|buckets| - 1], buckets[|buckets| - 1];
    DropIdleShorter(front, entries);
    if last.source == source {
      assert last in DropIdle(buckets, entries);
    } else {
      var b :| b in buckets && b.source == source;
      assert buckets == front + [last];
      assert b in front;
      ActiveKept(front, entries, source);
    }
  }

  lemma {:induction false} DropIdleShorter(buckets: seq<SourceBucket>, entries: seq<Entry>)
    ensures |DropIdle(buckets, entries)| <= |buckets|
  {
    if |buckets| > 0 {
      DropIdleShorter(buckets[..|buckets| - 1], entries);
    }
  }

  lemma BucketPresent(buckets: seq<SourceBucket>, source: seq<u8>)
    ensures FindBucket(buckets, source) < |buckets| <==> exists b :: b in buckets && b.source == source
  {
    var k := FindBucket(buckets, source);
    if k < |buckets| {
      assert buckets[k] in buckets;
    }
  }

  lemma PrunedBacks(entries: seq<Entry>, buckets: seq<SourceBucket>, now: u64)
    requires Backed(entries, buckets)
    ensures Backed(entries, Pruned(buckets, entries, now))
  {
    var r := RefillAll(buckets, now);
    DropIdleShorter(r, entries);
    forall e | e in entries
      ensures FindBucket(Pruned(buckets, entries, now), e.source) < |Pruned(buckets, entries, now)|
    {
      CountPositive(entries, e);
      assert r[FindBucket(buckets, e.source)] in r;
      ActiveKept(r, entries, e.source);
      BucketPresent(DropIdle(r, entries), e.source);
    }
  }

  lemma PreparedInv(s: State, now: u64)
    requires Inv(s)
    ensures Inv(Prepared(s, now))
  {
    hide Pruned;
    PrunedBacks(s.entries, s.buckets, now);
  }

  lemma AppendLimited(entries: seq<Entry>, e: Entry)
    requires Limited(entries) && !Crowded(entries, e.source, e.user) && !e.visible
    ensures Limited(entries + [e])
  {
    forall tally: Tally ensures Count(tally, entries + [e]) <= Limit(tally) {
      CountAppend(tally, entries, e);
      assert Count(tally, entries) <= Limit(tally);
    }
  }

  lemma TrackedInv(s: State, source: seq<u8>, now: u64)
    requires Inv(s) && Tracked(s, source, now).Some?
    ensures var t := Tracked(s, source, now).value;
            Inv(t) && FindBucket(t.buckets, source) < |t.buckets| && t == s.(buckets := t.buckets)
  {
    var t := Tracked(s, source, now).value;
    hide Apart, Limited, Leased, Owned, OwnersOk;
    if t != s {
      forall e | e in s.entries ensures FindBucket(t.buckets, e.source) < |t.buckets| {
        assert t.buckets[FindBucket(s.buckets, e.source)] == s.buckets[FindBucket(s.buckets, e.source)];
      }
      assert t.buckets[|s.buckets|].source == source;
    }
  }

  lemma GrantInv(s: State, k: nat, e: Entry)
    requires Inv(s) && k < |s.buckets| && s.global.tokens > 0 && s.buckets[k].bucket.tokens > 0
    requires k == FindBucket(s.buckets, e.source) && e == NewEntry(s, e.owner, e.id, e.source, e.user, e.admittedAt)
    requires FindOwner(s.owners, e.owner) < |s.owners| && Find(s.entries, e.id) == |s.entries| && s.nextLease != 0
    requires !Crowded(s.entries, e.source, e.user)
    ensures Inv(Grant(s, k, e))
  {
    hide Count, Limited, Crowded;
    AppendLimited(s.entries, e);
    var buckets := s.buckets[k := Taken(s.buckets[k])];
    forall x | x in s.entries + [e] ensures FindBucket(buckets, x.source) < |buckets| {
      assert buckets[FindBucket(s.buckets, x.source)].source == x.source;
    }
    forall j | 0 <= j < |s.entries| ensures Together(s.entries[j], e) {
      assert s.entries[j] in s.entries;
    }
    hide FindOwner, FindBucket;
  }

  lemma ReservePreparedInv(s: State, owner: u64, id: seq<u8>, source: seq<u8>, user: bool, now: u64)
    requires Inv(s) && FindOwner(s.owners, owner) < |s.owners| && Find(s.entries, id) == |s.entries|
    ensures Inv(ReservePrepared(s, owner, id, source, user, now).0)
  {
    hide Inv, Crowded, Tracked;
    if Tracked(s, source, now).Some? {
      var t := Tracked(s, source, now).value;
      TrackedInv(s, source, now);
      if ReservePrepared(s, owner, id, source, user, now).1.Some? {
        GrantInv(t, FindBucket(t.buckets, source), NewEntry(t, owner, id, source, user, now));
      }
    }
  }

  lemma ReserveInv(s: State, owner: u64, id: seq<u8>, source: seq<u8>, user: bool, now: u64)
    requires Inv(s)
    ensures Inv(Reserve(s, owner, id, source, user, now).0)
  {
    hide Inv, ReservePrepared, Pruned;
    PreparedInv(s, now);
    if FindOwner(s.owners, owner) < |s.owners| && Find(s.entries, id) == |s.entries| {
      ReservePreparedInv(Prepared(s, now), owner, id, source, user, now);
    }
  }

  lemma OpenInv(s: State, owner: u64, now: u64, duration: u64)
    requires Inv(s)
    ensures Inv(OpenWindow(s, owner, now, duration).0)
  {
    var i := FindOwner(s.owners, owner);
    if OpenWindow(s, owner, now, duration).1 {
      OwnerInv(s, i, Owner(owner, s.nextWindow, true, SaturatingAdd(now, duration)));
    }
  }

  lemma CloseInv(s: State, owner: u64)
    requires Inv(s)
    ensures Inv(CloseWindow(s, owner))
  {
    var i := FindOwner(s.owners, owner);
    if i < |s.owners| {
      OwnerInv(s, i, s.owners[i].(windowEnabled := false));
      WithoutInv(s.(owners := s.owners[i := s.owners[i].(windowEnabled := false)]), BoundOf(owner));
    }
  }

  /** Every operation keeps the invariant: identities and leases are distinct, at most one connection is bound to a
      pair of keys and one attempt is visible per owner, and the handshake and bucket limits hold. */
  lemma StepInv(s: State, command: Command)
    requires Inv(s)
    ensures Inv(Step(s, command))
  {
    hide Inv, Reserve, Bind, OpenWindow, CloseWindow, RetireOwner, RegisterOwner, MarkVisible;
    match command
    case Register => RegisterInv(s);
    case Retire(owner) => RetireInv(s, owner);
    case Open(owner, now, duration) => OpenInv(s, owner, now, duration);
    case Close(owner) => CloseInv(s, owner);
    case Reserving(owner, id, source, user, now) => ReserveInv(s, owner, id, source, user, now);
    case Binding(owner, id, lease, request, window) => BindInv(s, owner, id, lease, request, window);
    case Showing(id, lease) => ShowInv(s, id, lease);
    case Releasing(id, lease) => WithoutInv(s, ByLease(id, lease));
  }

  lemma {:induction false} ExecuteInv(s: State, commands: seq<Command>)
    requires Inv(s)
    ensures Inv(Execute(s, commands))
    decreases |commands|
  {
    if |commands| > 0 {
      StepInv(s, commands[0]);
      hide Step, Inv;
      ExecuteInv(Step(s, commands[0]), commands[1..]);
    }
  }

  lemma InitialInv()
    ensures Inv(Initial())
  {
  }
}
