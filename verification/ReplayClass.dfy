/** The replay cache as an object: its vector changed in place under its lock. */
module ReplayClass {
  import opened Common
  import opened Replay

  class ReplayState {
    var next: u64
    var entries: seq<Entry>

    ghost function View(): Cache
      reads this
    {
      Cache(next, entries)
    }

    constructor ()
      ensures View() == Cache(1, []) && Inv(View())
    {
      next, entries := 1, [];
    }

    method Prune(now: u64)
      modifies this`entries
      ensures View() == Pruned(old(View()), now)
    {
      entries := Without(entries, Expired(now));
    }

    /** With both capacity tests passed a reservation is always given. */
    method Reserve(peer: seq<u8>, now: u64) returns (reservation: Option<u64>)
      modifies this
      ensures (View(), reservation) == Replay.Reserve(old(View()), peer, now)
      ensures reservation.Some? <==>
              var p := Pruned(old(View()), now).entries; |p| < MAX_ENTRIES && CountPeer(p, peer) < MAX_ENTRIES_PER_PEER
    {
      Prune(now);
      if |entries| >= MAX_ENTRIES || CountPeer(entries, peer) >= MAX_ENTRIES_PER_PEER {
        return None;
      }
      SearchFinds(entries, next);
      ghost var found := Search(entries, next, MAX_ENTRIES + 1);
      var id, attempt := next, 0;
      while attempt <= MAX_ENTRIES
        invariant attempt <= MAX_ENTRIES + 1 && found == Search(entries, id, MAX_ENTRIES + 1 - attempt)
      {
        if id == 0 {
          id := 1;
        }
        if Find(entries, id) == |entries| {
          break;
        }
        id := Increment(id);
        attempt := attempt + 1;
      }
      assert id == found;
      if id == 0 || Find(entries, id) < |entries| {
        return None;
      }
      entries := entries + [Entry(id, [], peer, 0, false, true)];
      next := Increment(id);
      return Some(id);
    }

    method BindContext(id: u64, context: seq<u8>, now: u64) returns (result: BindResult)
      modifies this`entries
      ensures (View(), result) == Bind(old(View()), id, context, now)
    {
      if id == 0 {
        return StateViolation;
      }
      Prune(now);
      var i := Find(entries, id);
      if i == |entries| || !entries[i].reserved || entries[i].bound {
        return StateViolation;
      }
      if Duplicate(entries, i, context) {
        return ReplayDetected;
      }
      entries := entries[i := entries[i].(context := context, bound := true)];
      return Bound;
    }

    method Release(id: u64)
      modifies this`entries
      ensures View() == Released(old(View()), id)
    {
      if id != 0 {
        entries := Without(entries, Reservation(id));
      }
    }

    method CommitReservation(id: u64, now: u64)
      modifies this`entries
      ensures View() == Commit(old(View()), id, now)
    {
      if id == 0 {
        return;
      }
      var i := Find(entries, id);
      if i == |entries| {
        return;
      }
      if !entries[i].bound {
        Release(id);
        return;
      }
      entries := entries[i := entries[i].(expires := SaturatingAdd(now, RETENTION))];
      entries := entries[i := entries[i].(reserved := false)];
    }

    method RememberContext(context: seq<u8>, peer: seq<u8>, now: u64) returns (ok: bool)
      modifies this`entries
      ensures (View(), ok) == Remember(old(View()), context, peer, now)
    {
      Prune(now);
      if Contains(entries, context, peer) {
        return true;
      }
      if |entries| == MAX_ENTRIES || CountPeer(entries, peer) == MAX_ENTRIES_PER_PEER {
        return false;
      }
      entries := entries + [Entry(0, context, peer, SaturatingAdd(now, RETENTION), true, false)];
      return true;
    }
  }
}
