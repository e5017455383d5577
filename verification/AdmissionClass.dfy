/** Pairing admission as an object: the shared state that controllers and leases change
    under its lock, proved against the steps of `Admission`. */
module AdmissionClass {
  import opened Common
  import opened AdmissionBuckets
  import opened Admission
  import opened AdmissionInv

  class AdmissionState {
    var initialized: bool
    var global: Bucket
    var nextLease: u64
    var nextOwner: u64
    var nextWindow: u64
    var buckets: seq<SourceBucket>
    var entries: seq<Entry>
    var owners: seq<Owner>

    ghost function View(): State
      reads this
    {
      State(initialized, global, nextLease, nextOwner, nextWindow, buckets, entries, owners)
    }

    constructor ()
      ensures View() == Initial() && Inv(View())
    {
      initialized, global, nextLease, nextOwner, nextWindow := false, Bucket(0, 0), 1, 1, 1;
      buckets, entries, owners := [], [], [];
    }

    method RegisterOwner() returns (generation: u64)
      modifies this
      ensures (View(), generation) == Admission.RegisterOwner(old(View()))
    {
      if nextOwner == 0 {
        return 0;
      }
      generation := nextOwner;
      owners := owners + [Owner(generation, 0, false, 0)];
      nextOwner := Next(nextOwner);
    }

    method RetireOwner(owner: u64)
      modifies this
      ensures View() == Step(old(View()), Retire(owner))
    {
      if owner == 0 {
        return;
      }
      entries := Without(entries, AllOf(owner));
      owners := WithoutOwner(owners, owner);
    }

    method Initialize(now: u64)
      modifies this`initialized, this`global
      ensures View() == Initialized(old(View()), now)
    {
      if !initialized {
        initialized := true;
        global := Full(WholeProcess, now);
      }
    }

    method OpenWindow(owner: u64, now: u64, duration: u64) returns (ok: bool)
      modifies this
      ensures (View(), ok) == Admission.OpenWindow(old(View()), owner, now, duration)
    {
      if duration == 0 || duration > MAX_WINDOW {
        return false;
      }
      var i := FindOwner(owners, owner);
      if i == |owners| || (owners[i].windowEnabled && now < owners[i].windowDeadline) || nextWindow == 0 {
        return false;
      }
      Initialize(now);
      owners := owners[i := Owner(owner, nextWindow, true, SaturatingAdd(now, duration))];
      nextWindow := Next(nextWindow);
      return true;
    }

    method CloseWindow(owner: u64)
      modifies this
      ensures View() == Step(old(View()), Close(owner))
    {
      var i := FindOwner(owners, owner);
      if i == |owners| {
        return;
      }
      owners := owners[i := owners[i].(windowEnabled := false)];
      entries := Without(entries, BoundOf(owner));
    }

    /** Refill each source bucket, then erase the full ones of inactive sources. */
    method PruneSourceBuckets(now: u64)
      modifies this`buckets
      ensures buckets == Pruned(old(buckets), entries, now)
    {
      ghost var was := buckets;
      for i := 0 to |buckets|
        invariant |buckets| == |was|
        invariant forall k :: 0 <= k < |was| ==> buckets[k] == if k < i then Refilled(was[k], now) else was[k]
      {
        buckets := buckets[i := Refilled(buckets[i], now)];
      }
      assert buckets == RefillAll(was, now);
      buckets := DropIdle(buckets, entries);
    }

    method ReserveHandshake(owner: u64, id: seq<u8>, source: seq<u8>, user: bool, now: u64) returns (lease: Option<u64>)
      modifies this
      ensures (View(), lease) == Reserve(old(View()), owner, id, source, user, now)
    {
      hide Count, Pruned;
      if FindOwner(owners, owner) == |owners| || AllZero(id) || AllZero(source) || Find(entries, id) < |entries| {
        return None;
      }
      Initialize(now);
      global := Refill(global, now, WholeProcess);
      PruneSourceBuckets(now);
      assert View() == Prepared(old(View()), now);
      lease := ReserveSlot(owner, id, source, user, now);
    }

    /** The rest of `ReserveHandshake`, once the buckets are up to date. */
    method ReserveSlot(owner: u64, id: seq<u8>, source: seq<u8>, user: bool, now: u64) returns (lease: Option<u64>)
      modifies this
      ensures (View(), lease) == ReservePrepared(old(View()), owner, id, source, user, now)
    {
      hide Count;
      if |entries| >= MAX_INCOMPLETE {
        return None;
      }
      if !user {
        var others := Count(NonUser, entries);
        if others >= MAX_INCOMPLETE - RESERVED_USER_SLOTS {
          return None;
        }
      }
      if Count(FromSource(source), entries) >= MAX_INCOMPLETE_PER_SOURCE || global.tokens == 0 {
        return None;
      }
      var k := FindBucket(buckets, source);
      if k == |buckets| {
        if |buckets| == MAX_TRACKED_SOURCES {
          return None;
        }
        FindNew(buckets, SourceBucket(source, Full(PerSource, now)));
        buckets := buckets + [SourceBucket(source, Full(PerSource, now))];
      }
      if buckets[k].bucket.tokens == 0 || nextLease == 0 {
        return None;
      }
      var generation := nextLease;
      entries := entries + [Entry(id, generation, owner, source, [], [], Initiator, user, false, false, now, 0)];
      nextLease := Next(nextLease);
      global := global.(tokens := global.tokens - 1);
      buckets := buckets[k := Taken(buckets[k])];
      return Some(generation);
    }

    method Release(id: seq<u8>, lease: u64)
      modifies this`entries
      ensures View() == Step(old(View()), Releasing(id, lease))
    {
      entries := Without(entries, ByLease(id, lease));
    }

    /** `Bind`; it owns the lease, and lets go of it on every failure. */
    method Bind(owner: u64, id: seq<u8>, lease: u64, request: Request, window: u64) returns (result: BindResult)
      modifies this`entries
      ensures (View(), result) == Admission.Bind(old(View()), owner, id, lease, request, window)
    {
      hide Without, Yields;
      var i, o := Find(entries, id), FindOwner(owners, owner);
      if i == |entries| || entries[i].lease != lease || entries[i].bound || entries[i].owner != owner || o == |owners|
         || entries[i].id != request.id || entries[i].source != request.source || entries[i].user != request.user
         || !owners[o].windowEnabled || request.now >= owners[o].windowDeadline || window == 0
         || window != owners[o].windowGeneration {
        Release(id, lease);
        return Busy;
      }
      if !IsRole(request.role) || request.localKey == request.peerKey {
        Release(id, lease);
        return CertificateRejected;
      }
      var d := 0;
      while d < |entries| && (d == i || !Competes(entries[d], owner, request))
        invariant d <= |entries| && FindDuplicate(entries, i, owner, request, 0) ==
                  FindDuplicate(entries, i, owner, request, d)
      {
        d := d + 1;
      }
      if d < |entries| && !Yields(entries[d], request) {
        Release(id, lease);
        return Busy;
      }
      entries := entries[i := BoundEntry(entries[i], request, owners[o].windowDeadline)];
      if d == |entries| {
        return Bound(None);
      }
      var displaced := entries[d].id;
      entries := Without(entries, ById(displaced));
      return Bound(Some(displaced));
    }

    method MarkVisible(id: seq<u8>, lease: u64) returns (ok: bool)
      modifies this`entries
      ensures (View(), ok) == Admission.MarkVisible(old(View()), id, lease)
    {
      hide Count;
      var i := Find(entries, id);
      if i == |entries| || entries[i].lease != lease || !entries[i].bound {
        return false;
      }
      if entries[i].visible {
        return true;
      }
      if Count(VisibleOf(entries[i].owner), entries) == MAX_VISIBLE {
        return false;
      }
      entries := entries[i := entries[i].(visible := true)];
      return true;
    }
  }

  lemma FindNew(buckets: seq<SourceBucket>, b: SourceBucket)
    requires FindBucket(buckets, b.source) == |buckets|
    ensures FindBucket(buckets + [b], b.source) == |buckets|
  {
    var all := buckets + [b];
    assert all[|buckets|] == b;
    assert forall j :: 0 <= j < |buckets| ==> all[j] == buckets[j];
  }
}
