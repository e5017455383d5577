/** The bridge's peer table, rebuilt from the cache's event stream. */
module PeerRegistry {
  import opened Common
  import opened DiscoveryTypes
  import opened DiscoveryEntries
  import opened DiscoveryWire
  import opened DiscoveryCache
  import opened DiscoveryCacheInv
  import opened DiscoveryCacheRuns

  datatype Peer = Peer(id: u64, candidate: Candidate)

  datatype Change = PeerAppeared | PeerUpdated | PeerExpired(reason: ExpiryReason)

  datatype Notice = Notice(change: Change, revision: u64, peer: Peer)

  /** `next` is zero once the identifiers are used up. */
  datatype Peers = Peers(table: map<Key, Peer>, revision: u64, next: u64)

  function NextRevision(revision: u64): u64 {
    if revision == U64_MAX then 1 else revision + 1
  }

  function Applied(p: Peers, event: Event): (Peers, Option<Notice>) {
    var key, revision := event.value.key, NextRevision(p.revision);
    if event.Expired? then
      if key !in p.table then (p, None)
      else (p.(table := p.table - {key}, revision := revision),
            Some(Notice(PeerExpired(event.reason), revision, p.table[key])))
    else if key in p.table then
      var peer := Peer(p.table[key].id, event.value);
      (p.(table := p.table[key := peer], revision := revision), Some(Notice(PeerUpdated, revision, peer)))
    else if |p.table| >= MAX_CANDIDATES || p.next == 0 then (p, None)
    else
      var peer := Peer(p.next, event.value);
      (Peers(p.table[key := peer], revision, if p.next == U64_MAX then 0 else p.next + 1),
       Some(Notice(PeerAppeared, revision, peer)))
  }

  class DiscoveryPeerRegistry {
    var peers: map<Key, Peer>
    var revision: u64
    var nextPeerId: u64

    ghost function View(): Peers
      reads this
    {
      Peers(peers, revision, nextPeerId)
    }

    constructor ()
      ensures View() == Peers(map[], 1, 1)
    {
      peers, revision, nextPeerId := map[], 1, 1;
    }

    method Apply(event: Event) returns (notice: Option<Notice>)
      modifies this
      ensures (View(), notice) == Applied(old(View()), event)
    {
      var key := event.value.key;
      if event.Expired? {
        if key !in peers {
          return None;
        }
        var peer := peers[key];
        peers := peers - {key};
        revision := NextRevision(revision);
        return Some(Notice(PeerExpired(event.reason), revision, peer));
      }
      var change := PeerUpdated;
      if key !in peers {
        if |peers| >= MAX_CANDIDATES || nextPeerId == 0 {
          return None;
        }
        var id := nextPeerId;
        nextPeerId := if nextPeerId == U64_MAX then 0 else nextPeerId + 1;
        peers := peers[key := Peer(id, event.value)];
        change := PeerAppeared;
      } else {
        peers := peers[key := peers[key].(candidate := event.value)];
      }
      revision := NextRevision(revision);
      return Some(Notice(change, revision, peers[key]));
    }
  }

  // ----- A well-behaved event stream -----

  /** Peers appear under free keys while there is room, and only known ones change or go. */
  ghost predicate LegalEvent(m: Table, event: Event) {
    if event.Appeared? then event.value.key !in m && |m| < MAX_CANDIDATES else event.value.key in m
  }

  ghost predicate Legal(m: Table, events: seq<Event>) {
    |events| == 0 ||
    (Legal(m, events[..|events| - 1]) && LegalEvent(Fold(m, events[..|events| - 1]), events[|events| - 1]))
  }

  lemma {:induction false} LegalConcat(m: Table, a: seq<Event>, b: seq<Event>)
    requires Legal(m, a) && Legal(Fold(m, a), b)
    ensures Legal(m, a + b)
  {
    hide LegalEvent, Fold;
    if |b| == 0 {
      assert a + b == a;
    } else {
      var front, last := b[..|b| - 1], b[|b| - 1];
      assert Legal(Fold(m, a), front);
      LegalConcat(m, a, front);
      FoldConcat(m, a, front);
      assert (a + b)[..|a + b| - 1] == a + front && (a + b)[|a + b| - 1] == last;
    }
  }

  lemma LegalOne(m: Table, events: seq<Event>)
    requires |events| <= 1 && (|events| == 1 ==> LegalEvent(m, events[0]))
    ensures Legal(m, events)
  {
    FoldOne(m, []);
    assert |events| == 1 ==> events[..0] == [];
  }

  /** The candidates a sweep takes away are in the table when their events come. */
  lemma {:induction false} SweepLegal(m: Table, sweep: Sweep, entries: seq<Entry>, all: seq<Entry>)
    requires UniqueKeys(all) && Mirrors(m, all) && entries <= all
    ensures Legal(m, Expiries(sweep, entries))
  {
    if |entries| > 0 {
      var front, last := entries[..|entries| - 1], entries[|entries| - 1];
      SweepLegal(m, sweep, front, all);
      if Lost(sweep, last) {
        var events := Expiries(sweep, entries);
        assert events[..|events| - 1] == Expiries(sweep, front);
        LostIsShown(m, sweep, front, last, all);
      }
    }
  }

  lemma LostIsShown(m: Table, sweep: Sweep, front: seq<Entry>, last: Entry, all: seq<Entry>)
    requires UniqueKeys(all) && Mirrors(m, all) && front + [last] <= all && last.candidate
    ensures last.value.key in Fold(m, Expiries(sweep, front))
  {
    assert forall i :: 0 <= i < |front| ==> (front + [last])[i] == front[i] == all[i];
    assert all[|front|] == (front + [last])[|front|] == last;
    LookupAt(all, |front|);
    assert Shows(m, last.value.key) == Visible(Lookup(all, last.value.key));
    FoldExpiries(m, sweep, front, last.value.key);
    assert Find(front, last.value.key) == |front|;
  }

  lemma MessageLegal(m: Table, entries: seq<Entry>, key: Key, a: Advertisement, now: u64)
    requires UniqueKeys(entries) && Mirrors(m, entries)
    ensures Legal(m, Message(entries, key, a, now).events)
  {
    MessageEvents(entries, key, a, now);
    MirrorSize(m, entries);
    assert Shows(m, key) == Visible(Lookup(entries, key));
    hide Message, Lookup, Mirrors, UniqueKeys, Total;
    LegalOne(m, Message(entries, key, a, now).events);
  }

  lemma ReceiveLegal(m: Table, c: Cache, d: Metadata, payload: seq<u8>, now: u64, valid: LabelValidator)
    requires UniqueKeys(c.entries) && Mirrors(m, c.entries)
    ensures Legal(m, Received(c, d, payload, now, valid).1.events)
  {
    AtTimeMirrors(m, c, now);
    ReceivedCases(c, d, payload, now, valid);
    LegalOne(m, []);
    hide Received, Parse, Message, Mirrors, UniqueKeys;
    if Parse(payload, valid).Ok? {
      var a := Parse(payload, valid).value;
      MessageLegal(m, Current(c, now), Key(d.observer, d.source, a.token), a, now);
    }
  }

  lemma WakeLegal(m: Table, c: Cache, scopes: seq<Scope>, now: u64)
    requires UniqueKeys(c.entries) && Mirrors(m, c.entries)
    ensures Legal(m, Woken(c, scopes, now).events)
  {
    var entries, sweep := AtTime(c, now).entries, DropAbsent(Canonical(scopes));
    var buried := Swept(BuryAll(now), entries);
    AtTimeMirrors(m, c, now);
    SweepLegal(m, BuryAll(now), entries, entries);
    SweepMirrors(m, BuryAll(now), entries);
    SweptUnique(BuryAll(now), entries);
    SweepLegal(Fold(m, Expiries(BuryAll(now), entries)), sweep, buried, buried);
    LegalConcat(m, Expiries(BuryAll(now), entries), Expiries(sweep, buried));
  }

  lemma StepLegal(m: Table, c: Cache, command: Command, valid: LabelValidator)
    requires Inv(c) && Mirrors(m, c.entries)
    ensures Legal(m, Step(c, command, valid).events)
  {
    assert UniqueKeys(c.entries);
    hide Inv, Mirrors, Received, UniqueKeys, Woken, Swept, Expiries, Canonical;
    LegalOne(m, []);
    match command
    case Receive(d, payload, now) => ReceiveLegal(m, c, d, payload, now, valid);
    case Advance(now) => SweepLegal(m, BuryDue(now), c.entries, c.entries);
    case ApplySnapshot(scopes, now) =>
      AtTimeMirrors(m, c, now);
      var entries := AtTime(c, now).entries;
      SweepLegal(m, DropAbsent(Canonical(scopes)), entries, entries);
    case Wake(scopes, now) => WakeLegal(m, c, scopes, now);
    case _ =>
  }

  lemma {:induction false} RunLegal(commands: seq<Command>, valid: LabelValidator)
    requires NeverStopped(commands)
    ensures Legal(map[], Run(commands, valid).events)
  {
    if |commands| > 0 {
      var front, last := commands[..|commands| - 1], commands[|commands| - 1];
      RunLegal(front, valid);
      RunInv(front, valid);
      EventsRefineCache(front, valid);
      var before := Run(front, valid);
      StepLegal(Fold(map[], before.events), before.cache, last, valid);
      LegalConcat(map[], before.events, Step(before.cache, last, valid).events);
    }
  }

  // ----- Feeding the registry -----

  /** The registry after the events, and whether each of them drew a notice. */
  function Feed(p: Peers, events: seq<Event>): (Peers, bool) {
    if |events| == 0 then (p, true)
    else
      var (before, all) := Feed(p, events[..|events| - 1]);
      var (after, notice) := Applied(before, events[|events| - 1]);
      (after, all && notice.Some?)
  }

  /** Same keys, each peer with the port and label of the table. */
  ghost predicate Agrees(p: Peers, m: Table) {
    && p.table.Keys == m.Keys
    && forall key :: key in m ==> (p.table[key].candidate.port, p.table[key].candidate.name) == m[key]
  }

  /** Identifiers in use were given out once each. */
  ghost predicate IdsOk(p: Peers) {
    && p.next != 0
    && (forall key :: key in p.table ==> 1 <= p.table[key].id < p.next)
    && (forall a, b :: a in p.table && b in p.table && a != b ==> p.table[a].id != p.table[b].id)
  }

  lemma ApplyAgrees(p: Peers, m: Table, event: Event)
    requires Agrees(p, m) && LegalEvent(m, event) && p.next != 0
    ensures Agrees(Applied(p, event).0, Apply(m, event)) && Applied(p, event).1.Some?
  {
    assert |p.table.Keys| == |p.table| && |m.Keys| == |m|;
  }

  lemma ApplyIds(p: Peers, event: Event)
    requires IdsOk(p) && p.next < U64_MAX
    ensures IdsOk(Applied(p, event).0) && Applied(p, event).0.next <= p.next + 1
  {
  }

  lemma {:induction false} FeedAgrees(p: Peers, m: Table, events: seq<Event>)
    requires Agrees(p, m) && IdsOk(p) && Legal(m, events) && p.next + |events| <= U64_MAX
    ensures var (after, all) := Feed(p, events);
            all && Agrees(after, Fold(m, events)) && IdsOk(after) && after.next <= p.next + |events|
  {
    if |events| > 0 {
      var front := events[..|events| - 1];
      FeedAgrees(p, m, front);
      assert Feed(p, front).0.next != 0;
      hide Agrees, IdsOk, Applied, LegalEvent;
      ApplyAgrees(Feed(p, front).0, Fold(m, front), events[|events| - 1]);
      ApplyIds(Feed(p, front).0, events[|events| - 1]);
    }
  }

  /** Over every run without `Stop`, the registry fed the events in order drops none of them while peer identifiers
      last, and holds exactly the cache's candidates, with their ports and labels, under distinct identifiers. */
  lemma RegistryFollowsCache(commands: seq<Command>, valid: LabelValidator)
    requires NeverStopped(commands) && |Run(commands, valid).events| < U64_MAX
    ensures var (peers, all) := Feed(Peers(map[], 1, 1), Run(commands, valid).events);
            && all && IdsOk(peers)
            && forall key: Key ::
                 (if key in peers.table then Some((peers.table[key].candidate.port, peers.table[key].candidate.name))
                  else None)
                   == Visible(Lookup(Run(commands, valid).cache.entries, key))
  {
    var events := Run(commands, valid).events;
    var m := Fold(map[], events);
    RunLegal(commands, valid);
    EventsRefineCache(commands, valid);
    FeedAgrees(Peers(map[], 1, 1), map[], events);
    hide Run, Fold, Feed, Lookup;
    assert forall key: Key :: Shows(m, key) == Visible(Lookup(Run(commands, valid).cache.entries, key));
  }
}
