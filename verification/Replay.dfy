/** The replay cache of pairing contexts: reservations, bindings and their retention. */
module Replay {
  import opened Common

  const MAX_ENTRIES := 1_024
  const MAX_ENTRIES_PER_PEER := 32
  const RETENTION := 600_000

  datatype Entry = Entry(id: u64, context: seq<u8>, peer: seq<u8>, expires: u64, bound: bool, reserved: bool)

  datatype Cache = Cache(next: u64, entries: seq<Entry>)

  /** Which entries a removal takes. */
  datatype Which = Expired(now: u64) | Reservation(id: u64)

  predicate Picks(which: Which, e: Entry) {
    match which
    case Expired(now) => !e.reserved && e.expires <= now
    case Reservation(id) => e.reserved && e.id == id
  }

  /** `std::remove_if` and `erase`. */
  function Without(entries: seq<Entry>, which: Which): (r: seq<Entry>)
    ensures |r| <= |entries|
  {
    if |entries| == 0 then []
    else
      var front, last := Without(entries[..|entries| - 1], which), entries[|entries| - 1];
      if Picks(which, last) then front else front + [last]
  }

  function Find(entries: seq<Entry>, id: u64): (i: nat)
    ensures i <= |entries| && (i < |entries| ==> entries[i].id == id)
    ensures forall j :: 0 <= j < i ==> entries[j].id != id
  {
    if |entries| == 0 || entries[0].id == id then 0 else 1 + Find(entries[1..], id)
  }

  function CountPeer(entries: seq<Entry>, peer: seq<u8>): nat {
    if |entries| == 0 then 0
    else CountPeer(entries[..|entries| - 1], peer) + if entries[|entries| - 1].peer == peer then 1 else 0
  }

  predicate Remembers(e: Entry, context: seq<u8>, peer: seq<u8>) {
    e.bound && e.context == context && e.peer == peer
  }

  predicate Contains(entries: seq<Entry>, context: seq<u8>, peer: seq<u8>) {
    exists i :: 0 <= i < |entries| && Remembers(entries[i], context, peer)
  }

  // ----- The search for a free reservation identifier -----

  /** The identifier after `id`, zero once it wraps. */
  function Increment(id: u64): u64 {
    if id == U64_MAX then 0 else id + 1
  }

  /** Zero is no identifier; the search goes on from one. */
  function Proper(id: u64): u64 {
    if id == 0 then 1 else id
  }

  function Search(entries: seq<Entry>, id: u64, attempts: nat): u64
    decreases attempts
  {
    if attempts == 0 then id
    else if Find(entries, Proper(id)) == |entries| then Proper(id)
    else Search(entries, Increment(Proper(id)), attempts - 1)
  }

  /** The `k`-th identifier tried from `start`. */
  function Nth(start: u64, k: nat): (r: u64)
    requires start >= 1
    ensures r >= 1
  {
    if k == 0 then start else Proper(Increment(Nth(start, k - 1)))
  }

  lemma {:induction false} NthClosed(start: u64, k: nat)
    requires start >= 1 && k <= MAX_ENTRIES
    ensures Nth(start, k) == if start + k <= U64_MAX then start + k else start + k - U64_MAX
  {
    if k > 0 {
      NthClosed(start, k - 1);
    }
  }

  ghost function IdSet(entries: seq<Entry>): set<u64> {
    set i | 0 <= i < |entries| :: entries[i].id
  }

  lemma {:induction false} IdSetSize(entries: seq<Entry>)
    ensures |IdSet(entries)| <= |entries|
  {
    if |entries| > 0 {
      var front := entries[..|entries| - 1];
      IdSetSize(front);
      assert IdSet(entries) == IdSet(front) + {entries[|entries| - 1].id};
    }
  }

  /** `x` is among the first `n` identifiers tried from `start`. */
  ghost predicate Tried(start: u64, n: nat, x: u64)
    requires start >= 1
  {
    exists k :: 0 <= k < n && Nth(start, k) == x
  }

  /** The first identifiers tried are distinct. */
  lemma {:induction false} TriedSize(start: u64, n: nat) returns (tried: set<u64>)
    requires start >= 1 && n <= MAX_ENTRIES + 1
    ensures |tried| == n && forall x :: x in tried ==> Tried(start, n, x)
  {
    if n == 0 {
      tried := {};
    } else {
      var before := TriedSize(start, n - 1);
      var last := Nth(start, n - 1);
      forall x | x in before ensures x != last && Tried(start, n, x) {
        var k :| 0 <= k < n - 1 && Nth(start, k) == x;
        NthClosed(start, k);
        NthClosed(start, n - 1);
      }
      tried := before + {last};
      assert Tried(start, n, last);
    }
  }

  lemma SomeFree(entries: seq<Entry>, start: u64)
    requires start >= 1 && |entries| < MAX_ENTRIES
    ensures exists k :: 0 <= k < MAX_ENTRIES && Find(entries, Nth(start, k)) == |entries|
  {
    if forall k :: 0 <= k < MAX_ENTRIES ==> Find(entries, Nth(start, k)) < |entries| {
      var tried := TriedSize(start, MAX_ENTRIES);
      IdSetSize(entries);
      forall x | x in tried ensures x in IdSet(entries) {
        assert Tried(start, MAX_ENTRIES, x);
        var k :| 0 <= k < MAX_ENTRIES && Nth(start, k) == x;
        assert Find(entries, Nth(start, k)) < |entries|;
      }
      Inside(tried, IdSet(entries));
      assert false;
    }
  }

  lemma Inside(a: set<u64>, b: set<u64>)
    requires a <= b
    ensures |a| <= |b|
  {
    assert b == a + (b - a);
  }

  lemma {:induction false} SearchFollows(entries: seq<Entry>, start: u64, j: nat, k: nat, attempts: nat)
    requires start >= 1 && j <= k && k - j < attempts && Find(entries, Nth(start, k)) == |entries|
    ensures var id := Search(entries, Nth(start, j), attempts); id != 0 && Find(entries, id) == |entries|
    decreases k - j
  {
    if Find(entries, Nth(start, j)) < |entries| {
      assert j < k;
      SearchFollows(entries, start, j + 1, k, attempts - 1);
      assert Nth(start, j + 1) == Proper(Increment(Nth(start, j)));
      SearchProper(entries, Increment(Nth(start, j)), attempts - 1);
    }
  }

  lemma SearchProper(entries: seq<Entry>, id: u64, attempts: nat)
    requires attempts > 0
    ensures Search(entries, id, attempts) == Search(entries, Proper(id), attempts)
  {
  }

  /** With room for another entry, the wrapping search always ends at a free identifier. */
  lemma SearchFinds(entries: seq<Entry>, next: u64)
    requires |entries| < MAX_ENTRIES
    ensures var id := Search(entries, next, MAX_ENTRIES + 1); id != 0 && Find(entries, id) == |entries|
  {
    SomeFree(entries, Proper(next));
    var k :| 0 <= k < MAX_ENTRIES && Find(entries, Nth(Proper(next), k)) == |entries|;
    SearchFollows(entries, Proper(next), 0, k, MAX_ENTRIES + 1);
    SearchProper(entries, next, MAX_ENTRIES + 1);
  }

  // ----- Operations -----

  function Pruned(c: Cache, now: u64): Cache {
    c.(entries := Without(c.entries, Expired(now)))
  }

  function Reserve(c: Cache, peer: seq<u8>, now: u64): (Cache, Option<u64>) {
    var p := Pruned(c, now);
    if |p.entries| >= MAX_ENTRIES || CountPeer(p.entries, peer) >= MAX_ENTRIES_PER_PEER then (p, None)
    else
      var id := Search(p.entries, p.next, MAX_ENTRIES + 1);
      if id == 0 || Find(p.entries, id) < |p.entries| then (p, None)
      else (Cache(Increment(id), p.entries + [Entry(id, [], peer, 0, false, true)]), Some(id))
  }

  datatype BindResult = Bound | StateViolation | ReplayDetected

  /** An entry other than the reservation's own remembers the context for its peer. */
  predicate Duplicate(entries: seq<Entry>, i: nat, context: seq<u8>)
    requires i < |entries|
  {
    exists j :: 0 <= j < |entries| && entries[j].id != entries[i].id && Remembers(entries[j], context, entries[i].peer)
  }

  function Bind(c: Cache, id: u64, context: seq<u8>, now: u64): (Cache, BindResult) {
    if id == 0 then (c, StateViolation)
    else
      var p := Pruned(c, now);
      var i := Find(p.entries, id);
      if i == |p.entries| || !p.entries[i].reserved || p.entries[i].bound then (p, StateViolation)
      else if Duplicate(p.entries, i, context) then (p, ReplayDetected)
      else (p.(entries := p.entries[i := p.entries[i].(context := context, bound := true)]), Bound)
  }

  function Released(c: Cache, id: u64): Cache {
    if id == 0 then c else c.(entries := Without(c.entries, Reservation(id)))
  }

  function Commit(c: Cache, id: u64, now: u64): Cache {
    var i := Find(c.entries, id);
    if id == 0 || i == |c.entries| then c
    else if !c.entries[i].bound then Released(c, id)
    else c.(entries := c.entries[i := c.entries[i].(expires := SaturatingAdd(now, RETENTION), reserved := false)])
  }

  function Remember(c: Cache, context: seq<u8>, peer: seq<u8>, now: u64): (Cache, bool) {
    var p := Pruned(c, now);
    if Contains(p.entries, context, peer) then (p, true)
    else if |p.entries| == MAX_ENTRIES || CountPeer(p.entries, peer) == MAX_ENTRIES_PER_PEER then (p, false)
    else (p.(entries := p.entries + [Entry(0, context, peer, SaturatingAdd(now, RETENTION), true, false)]), true)
  }

  datatype Command =
    | Reserving(peer: seq<u8>, now: u64)
    | Binding(id: u64, context: seq<u8>, now: u64)
    | Committing(id: u64, now: u64)
    | Dropping(id: u64)
    | Asking(context: seq<u8>, peer: seq<u8>, now: u64)
    | Remembering(context: seq<u8>, peer: seq<u8>, now: u64)

  function Step(c: Cache, command: Command): Cache {
    match command
    case Reserving(peer, now) => Reserve(c, peer, now).0
    case Binding(id, context, now) => Bind(c, id, context, now).0
    case Committing(id, now) => Commit(c, id, now)
    case Dropping(id) => Released(c, id)
    case Asking(_, _, now) => Pruned(c, now)
    case Remembering(context, peer, now) => Remember(c, context, peer, now).0
  }

  function Execute(c: Cache, commands: seq<Command>): Cache
    decreases |commands|
  {
    if |commands| == 0 then c else Execute(Step(c, commands[0]), commands[1..])
  }

  // ----- The invariant -----

  /** Two entries that may stand together: no shared reservation, no shared peer and context. */
  predicate Together(a: Entry, b: Entry) {
    && (a.id == b.id ==> a.id == 0)
    && !(a.bound && b.bound && a.peer == b.peer && a.context == b.context)
  }

  predicate Sound(e: Entry) {
    (e.reserved ==> e.id != 0) && (e.reserved || e.bound)
  }

  ghost predicate Apart(entries: seq<Entry>) {
    forall i, j :: 0 <= i < j < |entries| ==> Together(entries[i], entries[j])
  }

  ghost predicate Inv(c: Cache) {
    && Apart(c.entries) && |c.entries| <= MAX_ENTRIES
    && (forall e :: e in c.entries ==> Sound(e))
    && (forall peer: seq<u8> :: CountPeer(c.entries, peer) <= MAX_ENTRIES_PER_PEER)
  }

  lemma {:induction false} WithoutFrom(entries: seq<Entry>, which: Which)
    ensures forall e :: e in Without(entries, which) <==> e in entries && !Picks(which, e)
  {
    if |entries| > 0 {
      WithoutFrom(entries[..|entries| - 1], which);
      assert entries == entries[..|entries| - 1] + [entries[|entries| - 1]];
    }
  }

  lemma {:induction false} WithoutApart(entries: seq<Entry>, which: Which)
    requires Apart(entries)
    ensures Apart(Without(entries, which))
  {
    if |entries| > 0 {
      var front, last := entries[..|entries| - 1], entries[|entries| - 1];
      assert forall i :: 0 <= i < |front| ==> front[i] == entries[i];
      WithoutApart(front, which);
      WithoutFrom(front, which);
      var kept := Without(front, which);
      forall i | 0 <= i < |kept| ensures Together(kept[i], last) {
        assert kept[i] in front;
        var k :| 0 <= k < |front| && front[k] == kept[i];
        assert Together(entries[k], entries[|entries| - 1]);
      }
    }
  }

  lemma {:induction false} WithoutCount(entries: seq<Entry>, which: Which, peer: seq<u8>)
    ensures CountPeer(Without(entries, which), peer) <= CountPeer(entries, peer)
  {
    if |entries| > 0 {
      var front, last := entries[..|entries| - 1], entries[|entries| - 1];
      WithoutCount(front, which, peer);
      assert (Without(front, which) + [last])[..|Without(front, which)|] == Without(front, which);
    }
  }

  lemma WithoutInv(c: Cache, which: Which)
    requires Inv(c)
    ensures Inv(c.(entries := Without(c.entries, which)))
  {
    WithoutApart(c.entries, which);
    WithoutFrom(c.entries, which);
    forall peer: seq<u8> ensures CountPeer(Without(c.entries, which), peer) <= MAX_ENTRIES_PER_PEER {
      WithoutCount(c.entries, which, peer);
    }
  }

  lemma {:induction false} CountUpdate(entries: seq<Entry>, i: nat, e: Entry, peer: seq<u8>)
    requires i < |entries| && e.peer == entries[i].peer
    ensures CountPeer(entries[i := e], peer) == CountPeer(entries, peer)
  {
    var n := |entries| - 1;
    if i < n {
      CountUpdate(entries[..n], i, e, peer);
      assert entries[i := e][..n] == entries[..n][i := e];
    } else {
      assert entries[i := e][..n] == entries[..n];
    }
  }

  lemma UpdateInv(c: Cache, i: nat, e: Entry)
    requires Inv(c) && i < |c.entries| && e.peer == c.entries[i].peer && e.id == c.entries[i].id && Sound(e)
    requires forall j :: 0 <= j < |c.entries| && j != i ==> Together(c.entries[j], e)
    ensures Inv(c.(entries := c.entries[i := e]))
  {
    var after := c.entries[i := e];
    forall j, k | 0 <= j < k < |after| ensures Together(after[j], after[k]) {
      if j == i {
        assert Together(c.entries[k], e);
      }
    }
    forall peer: seq<u8> ensures CountPeer(after, peer) <= MAX_ENTRIES_PER_PEER {
      CountUpdate(c.entries, i, e, peer);
    }
    forall x | x in after ensures Sound(x) {
      assert x == e || x in c.entries;
    }
  }

  lemma AppendInv(c: Cache, e: Entry, next: u64)
    requires Inv(c) && |c.entries| < MAX_ENTRIES && CountPeer(c.entries, e.peer) < MAX_ENTRIES_PER_PEER && Sound(e)
    requires forall j :: 0 <= j < |c.entries| ==> Together(c.entries[j], e)
    ensures Inv(Cache(next, c.entries + [e]))
  {
    assert (c.entries + [e])[..|c.entries|] == c.entries;
  }

  lemma Others(entries: seq<Entry>, i: nat, j: nat)
    requires Apart(entries) && i < |entries| && j < |entries| && i != j
    ensures Together(entries[i], entries[j])
  {
    assert i > j ==> Together(entries[j], entries[i]);
  }

  lemma BindInv(c: Cache, id: u64, context: seq<u8>, now: u64)
    requires Inv(c)
    ensures Inv(Bind(c, id, context, now).0)
  {
    WithoutInv(c, Expired(now));
    var p := Pruned(c, now);
    if Bind(c, id, context, now).1.Bound? {
      var i := Find(p.entries, id);
      assert p.entries[i] in p.entries;
      var e := p.entries[i].(context := context, bound := true);
      forall j | 0 <= j < |p.entries| && j != i ensures Together(p.entries[j], e) {
        Others(p.entries, j, i);
      }
      UpdateInv(p, i, e);
    }
  }

  lemma CommitInv(c: Cache, id: u64, now: u64)
    requires Inv(c)
    ensures Inv(Commit(c, id, now))
  {
    WithoutInv(c, Reservation(id));
    var i := Find(c.entries, id);
    if i < |c.entries| && c.entries[i].bound {
      var e := c.entries[i].(expires := SaturatingAdd(now, RETENTION), reserved := false);
      forall j | 0 <= j < |c.entries| && j != i ensures Together(c.entries[j], e) {
        Others(c.entries, j, i);
      }
      UpdateInv(c, i, e);
    }
  }

  /** Every operation keeps the invariant; in particular no two entries are bound to one peer and context. */
  lemma StepInv(c: Cache, command: Command)
    requires Inv(c)
    ensures Inv(Step(c, command))
  {
    match command
    case Reserving(peer, now) =>
      WithoutInv(c, Expired(now));
      var p := Pruned(c, now);
      if Reserve(c, peer, now).1.Some? {
        AppendInv(p, Entry(Reserve(c, peer, now).1.value, [], peer, 0, false, true), Reserve(c, peer, now).0.next);
      }
    case Binding(id, context, now) => BindInv(c, id, context, now);
    case Committing(id, now) => CommitInv(c, id, now);
    case Dropping(id) => WithoutInv(c, Reservation(id));
    case Asking(_, _, now) => WithoutInv(c, Expired(now));
    case Remembering(context, peer, now) =>
      WithoutInv(c, Expired(now));
      var p := Pruned(c, now);
      if Remember(c, context, peer, now).0 != p {
        CountPeerBelow(p, peer);
        AppendInv(p, Entry(0, context, peer, SaturatingAdd(now, RETENTION), true, false), p.next);
      }
  }

  lemma CountPeerBelow(c: Cache, peer: seq<u8>)
    requires Inv(c)
    ensures CountPeer(c.entries, peer) <= MAX_ENTRIES_PER_PEER
  {
  }

  lemma {:induction false} ExecuteInv(c: Cache, commands: seq<Command>)
    requires Inv(c)
    ensures Inv(Execute(c, commands))
    decreases |commands|
  {
    if |commands| > 0 {
      StepInv(c, commands[0]);
      hide Step, Inv;
      ExecuteInv(Step(c, commands[0]), commands[1..]);
    }
  }
}
