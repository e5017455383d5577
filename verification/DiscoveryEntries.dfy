/** The entry list of the discovery cache: candidates and tombstones, the sweeps over them,
    the events those produce, and the byte and slot accounting. */
module DiscoveryEntries {
  import opened Common
  import opened BoundedSelection
  import opened DiscoveryTypes

  const TOMBSTONE_LIFETIME := 60_000

  datatype Key = Key(observer: Scope, source: IpAddress, token: seq<u8>)

  datatype Candidate = Candidate(key: Key, port: u16, name: seq<u8>, deadline: u64, highest: u64)

  /** `raw` holds the first `raw_size` bytes of the source's fixed array. */
  datatype Entry = Entry(candidate: bool, value: Candidate, raw: seq<u8>, retainUntil: u64)

  datatype ExpiryReason = Ttl | Withdrawn | InterfaceRemoved | Waking

  datatype Event = Appeared(value: Candidate) | Updated(value: Candidate)
      | Expired(value: Candidate, reason: ExpiryReason)

  // ----- Lookup -----

  function Find(entries: seq<Entry>, key: Key): (i: nat)
    ensures i <= |entries| && (i < |entries| ==> entries[i].value.key == key)
    ensures forall j :: 0 <= j < i ==> entries[j].value.key != key
  {
    if |entries| == 0 || entries[0].value.key == key then 0 else 1 + Find(entries[1..], key)
  }

  /** The entry under `key`, if any. */
  function Lookup(entries: seq<Entry>, key: Key): (r: Option<Entry>)
    ensures r.Some? ==> r.value in entries && r.value.value.key == key
  {
    var i := Find(entries, key);
    if i < |entries| then Some(entries[i]) else None
  }

  ghost predicate UniqueKeys(entries: seq<Entry>) {
    forall i, j :: 0 <= i < j < |entries| ==> entries[i].value.key != entries[j].value.key
  }

  lemma {:induction false} LookupAppend(front: seq<Entry>, last: Entry, key: Key)
    ensures Lookup(front + [last], key) ==
            if Lookup(front, key).Some? then Lookup(front, key)
            else if last.value.key == key then Some(last) else None
  {
    var all := front + [last];
    var i := Find(all, key);
    assert forall j :: 0 <= j < |front| ==> all[j] == front[j];
    assert all[|front|] == last;
    if Find(front, key) < |front| {
      assert i == Find(front, key);
    } else {
      assert i >= |front|;
    }
  }

  lemma LookupUpdate(entries: seq<Entry>, i: nat, e: Entry, key: Key)
    requires i < |entries| && e.value.key == entries[i].value.key && UniqueKeys(entries)
    ensures UniqueKeys(entries[i := e])
    ensures Lookup(entries[i := e], key) == if key == e.value.key then Some(e) else Lookup(entries, key)
  {
    var after := entries[i := e];
    var a, b := Find(entries, key), Find(after, key);
    assert forall j :: 0 <= j < |entries| ==> after[j].value.key == entries[j].value.key;
    assert a == b;
  }

  /** With unique keys, what is found under a key is the only entry with it. */
  lemma LookupAt(entries: seq<Entry>, i: nat)
    requires i < |entries| && UniqueKeys(entries)
    ensures Lookup(entries, entries[i].value.key) == Some(entries[i])
  {
    assert Find(entries, entries[i].value.key) == i;
  }

  // ----- Sweeps -----

  datatype Sweep =
    | EraseTombstones(now: u64)
    | BuryDue(now: u64)
    | BuryAll(now: u64)
    | DropAbsent(scopes: seq<Scope>)

  /** The tombstone a candidate turns into. */
  function Bury(e: Entry, now: u64): Entry {
    Entry(false, Candidate(e.value.key, 0, [], 0, e.value.highest), [], SaturatingAdd(now, TOMBSTONE_LIFETIME))
  }

  /** What becomes of an entry; `None` when it is erased. */
  function After(sweep: Sweep, e: Entry): (r: Option<Entry>)
    ensures r.Some? ==> r.value.value.key == e.value.key && (r.value.candidate ==> r.value == e)
  {
    match sweep
    case EraseTombstones(now) => if !e.candidate && now >= e.retainUntil then None else Some(e)
    case BuryDue(now) => if e.candidate && now >= e.value.deadline then Some(Bury(e, now)) else Some(e)
    case BuryAll(now) => if e.candidate then Some(Bury(e, now)) else Some(e)
    case DropAbsent(scopes) => if BinarySearch(scopes, e.value.key.observer, ScopeLess) then Some(e) else None
  }

  function Reason(sweep: Sweep): ExpiryReason {
    match sweep
    case BuryAll(_) => Waking
    case DropAbsent(_) => InterfaceRemoved
    case _ => Ttl
  }

  /** A candidate that is one no longer after the sweep. */
  predicate Lost(sweep: Sweep, e: Entry) {
    e.candidate && (After(sweep, e).None? || !After(sweep, e).value.candidate)
  }

  function Swept(sweep: Sweep, entries: seq<Entry>): (r: seq<Entry>)
    ensures |r| <= |entries|
  {
    if |entries| == 0 then []
    else
      var front, last := Swept(sweep, entries[..|entries| - 1]), entries[|entries| - 1];
      match After(sweep, last)
      case None => front
      case Some(e) => front + [e]
  }

  /** One event per lost candidate, in entry order. */
  function Expiries(sweep: Sweep, entries: seq<Entry>): seq<Event> {
    if |entries| == 0 then []
    else
      var front, last := Expiries(sweep, entries[..|entries| - 1]), entries[|entries| - 1];
      if Lost(sweep, last) then front + [Expired(last.value, Reason(sweep))] else front
  }

  /** `e` is what became of one of `entries`. */
  ghost predicate Survives(sweep: Sweep, entries: seq<Entry>, e: Entry) {
    exists j :: 0 <= j < |entries| && After(sweep, entries[j]) == Some(e)
  }

  lemma {:induction false} SweptFrom(sweep: Sweep, entries: seq<Entry>)
    ensures forall e :: e in Swept(sweep, entries) ==> Survives(sweep, entries, e)
  {
    if |entries| > 0 {
      var front, last := entries[..|entries| - 1], entries[|entries| - 1];
      SweptFrom(sweep, front);
      forall e | e in Swept(sweep, entries) ensures Survives(sweep, entries, e) {
        if e in Swept(sweep, front) {
          var j :| 0 <= j < |front| && After(sweep, front[j]) == Some(e);
          assert After(sweep, entries[j]) == Some(e);
        } else {
          assert After(sweep, last) == Some(e);
        }
      }
    }
  }

  lemma {:induction false} SweptUnique(sweep: Sweep, entries: seq<Entry>)
    requires UniqueKeys(entries)
    ensures UniqueKeys(Swept(sweep, entries))
  {
    if |entries| > 0 {
      var front, last := entries[..|entries| - 1], entries[|entries| - 1];
      SweptUnique(sweep, front);
      SweptFrom(sweep, front);
      forall i | 0 <= i < |Swept(sweep, front)|
        ensures Swept(sweep, front)[i].value.key != last.value.key
      {
        var e := Swept(sweep, front)[i];
        assert Survives(sweep, front, e);
        var j :| 0 <= j < |front| && After(sweep, front[j]) == Some(e);
        assert entries[j] == front[j];
      }
    }
  }

  function Then(sweep: Sweep, found: Option<Entry>): Option<Entry> {
    if found.Some? then After(sweep, found.value) else None
  }

  /** A sweep acts on each key by itself. */
  lemma {:induction false} LookupSwept(sweep: Sweep, entries: seq<Entry>, key: Key)
    requires UniqueKeys(entries)
    ensures Lookup(Swept(sweep, entries), key) == Then(sweep, Lookup(entries, key))
  {
    if |entries| > 0 {
      var front, last := entries[..|entries| - 1], entries[|entries| - 1];
      LookupSwept(sweep, front, key);
      LookupAppend(front, last, key);
      assert entries == front + [last];
      if Lookup(front, key).Some? {
        var i := Find(front, key);
        assert entries[i] == front[i];
      }
      if After(sweep, last).Some? {
        LookupAppend(Swept(sweep, front), After(sweep, last).value, key);
      }
    }
  }

  // ----- The event stream as a table -----

  type Table = map<Key, (u16, seq<u8>)>

  function Apply(m: Table, event: Event): Table {
    if event.Expired? then m - {event.value.key} else m[event.value.key := (event.value.port, event.value.name)]
  }

  function Fold(m: Table, events: seq<Event>): Table {
    if |events| == 0 then m else Apply(Fold(m, events[..|events| - 1]), events[|events| - 1])
  }

  function Shows(m: Table, key: Key): Option<(u16, seq<u8>)> {
    if key in m then Some(m[key]) else None
  }

  function Visible(found: Option<Entry>): Option<(u16, seq<u8>)> {
    if found.Some? && found.value.candidate then Some((found.value.value.port, found.value.value.name)) else None
  }

  /** `m` holds exactly the candidates, each with its port and label. */
  ghost predicate Mirrors(m: Table, entries: seq<Entry>) {
    forall key: Key :: Shows(m, key) == Visible(Lookup(entries, key))
  }

  lemma {:induction false} FoldConcat(m: Table, a: seq<Event>, b: seq<Event>)
    ensures Fold(m, a + b) == Fold(Fold(m, a), b)
  {
    if |b| == 0 {
      assert a + b == a;
    } else {
      assert (a + b)[..|a + b| - 1] == a + b[..|b| - 1];
      FoldConcat(m, a, b[..|b| - 1]);
    }
  }

  lemma {:induction false} FoldExpiries(m: Table, sweep: Sweep, entries: seq<Entry>, key: Key)
    requires UniqueKeys(entries)
    ensures Shows(Fold(m, Expiries(sweep, entries)), key) ==
            if Lookup(entries, key).Some? && Lost(sweep, Lookup(entries, key).value) then None else Shows(m, key)
  {
    if |entries| > 0 {
      var front, last := entries[..|entries| - 1], entries[|entries| - 1];
      FoldExpiries(m, sweep, front, key);
      LookupAppend(front, last, key);
      assert entries == front + [last];
      if Lookup(front, key).Some? {
        var i := Find(front, key);
        assert entries[i] == front[i];
      }
      hide Lookup, Swept, Lost;
      if Lost(sweep, last) {
        var events := Expiries(sweep, entries);
        assert events[..|events| - 1] == Expiries(sweep, front);
      }
    }
  }

  /** The events of a sweep account for exactly the candidates it takes away. */
  lemma SweepMirrors(m: Table, sweep: Sweep, entries: seq<Entry>)
    requires UniqueKeys(entries) && Mirrors(m, entries)
    ensures Mirrors(Fold(m, Expiries(sweep, entries)), Swept(sweep, entries))
  {
    forall key: Key
      ensures Shows(Fold(m, Expiries(sweep, entries)), key) == Visible(Lookup(Swept(sweep, entries), key))
    {
      FoldExpiries(m, sweep, entries, key);
      LookupSwept(sweep, entries, key);
    }
  }

  // ----- Accounting -----

  datatype Tally = RawBytes | AllEntries | AllCandidates | EntriesIn(scope: Scope) | CandidatesIn(scope: Scope)

  function Weight(tally: Tally, e: Entry): nat {
    match tally
    case RawBytes => |e.raw|
    case AllEntries => 1
    case AllCandidates => if e.candidate then 1 else 0
    case EntriesIn(scope) => if e.value.key.observer == scope then 1 else 0
    case CandidatesIn(scope) => if e.candidate && e.value.key.observer == scope then 1 else 0
  }

  function Total(tally: Tally, entries: seq<Entry>): nat {
    if |entries| == 0 then 0 else Total(tally, entries[..|entries| - 1]) + Weight(tally, entries[|entries| - 1])
  }

  const MAX_RETAINED_BYTES := 131_072
  const MAX_ENTRIES := 512
  const MAX_CANDIDATES := 256
  const MAX_ENTRIES_PER_SCOPE := 128
  const MAX_CANDIDATES_PER_SCOPE := 64

  function Cap(tally: Tally): nat {
    match tally
    case RawBytes => MAX_RETAINED_BYTES
    case AllEntries => MAX_ENTRIES
    case AllCandidates => MAX_CANDIDATES
    case EntriesIn(_) => MAX_ENTRIES_PER_SCOPE
    case CandidatesIn(_) => MAX_CANDIDATES_PER_SCOPE
  }

  lemma {:induction false} TotalConcat(tally: Tally, a: seq<Entry>, b: seq<Entry>)
    ensures Total(tally, a + b) == Total(tally, a) + Total(tally, b)
  {
    if |b| == 0 {
      assert a + b == a;
    } else {
      assert (a + b)[..|a + b| - 1] == a + b[..|b| - 1];
      TotalConcat(tally, a, b[..|b| - 1]);
    }
  }

  lemma TotalOne(tally: Tally, e: Entry)
    ensures Total(tally, [e]) == Weight(tally, e)
  {
    assert Total(tally, [e][..0]) == 0;
  }

  lemma TotalSplit(tally: Tally, entries: seq<Entry>, i: nat)
    requires i < |entries|
    ensures Total(tally, entries) ==
            Total(tally, entries[..i]) + Weight(tally, entries[i]) + Total(tally, entries[i + 1..])
  {
    assert entries == entries[..i] + ([entries[i]] + entries[i + 1..]);
    TotalConcat(tally, entries[..i], [entries[i]] + entries[i + 1..]);
    TotalConcat(tally, [entries[i]], entries[i + 1..]);
    TotalOne(tally, entries[i]);
  }

  lemma TotalUpdate(tally: Tally, entries: seq<Entry>, i: nat, e: Entry)
    requires i < |entries|
    ensures Total(tally, entries[i := e]) == Total(tally, entries) - Weight(tally, entries[i]) + Weight(tally, e)
  {
    TotalSplit(tally, entries, i);
    TotalSplit(tally, entries[i := e], i);
    assert entries[i := e][..i] == entries[..i] && entries[i := e][i + 1..] == entries[i + 1..];
  }

  lemma TotalAppend(tally: Tally, entries: seq<Entry>, e: Entry)
    ensures Total(tally, entries + [e]) == Total(tally, entries) + Weight(tally, e)
  {
    assert (entries + [e])[..|entries|] == entries;
  }

  lemma {:induction false} TotalIsLength(entries: seq<Entry>)
    ensures Total(AllEntries, entries) == |entries|
  {
    if |entries| > 0 {
      TotalIsLength(entries[..|entries| - 1]);
    }
  }

  /** A sweep never raises a total. */
  lemma {:induction false} SweptTotal(tally: Tally, sweep: Sweep, entries: seq<Entry>)
    ensures Total(tally, Swept(sweep, entries)) <= Total(tally, entries)
  {
    if |entries| > 0 {
      var front, last := entries[..|entries| - 1], entries[|entries| - 1];
      SweptTotal(tally, sweep, front);
      if After(sweep, last).Some? {
        TotalAppend(tally, Swept(sweep, front), After(sweep, last).value);
      }
    }
  }

  /** Without the row of the last entry, the table mirrors the others. */
  lemma MirrorFront(m: Table, front: seq<Entry>, last: Entry)
    requires UniqueKeys(front + [last]) && Mirrors(m, front + [last])
    ensures UniqueKeys(front) && Mirrors(m - {last.value.key}, front)
    ensures last.value.key in m <==> last.candidate
  {
    var all, key := front + [last], last.value.key;
    assert forall i :: 0 <= i < |front| ==> all[i] == front[i];
    LookupAt(all, |front|);
    assert Shows(m, key) == Visible(Some(last));
    forall other: Key ensures Shows(m - {key}, other) == Visible(Lookup(front, other)) {
      LookupAppend(front, last, other);
      assert Shows(m, other) == Visible(Lookup(all, other));
      var i := Find(front, other);
      assert i < |front| ==> all[i].value.key != all[|front|].value.key;
    }
  }

  lemma MirrorEmpty(m: Table)
    requires Mirrors(m, [])
    ensures m == map[]
  {
    assert forall key :: key in m ==> Shows(m, key) == Visible(Lookup([], key));
  }

  lemma RowRemoved(m: Table, key: Key)
    ensures |m - {key}| == if key in m then |m| - 1 else |m|
  {
    assert m.Keys == (m - {key}).Keys + (if key in m then {key} else {});
    assert |m.Keys| == |m| && |(m - {key}).Keys| == |m - {key}|;
  }

  /** The table of the event stream has as many rows as there are candidates. */
  lemma {:induction false} MirrorSize(m: Table, entries: seq<Entry>)
    requires UniqueKeys(entries) && Mirrors(m, entries)
    ensures |m| == Total(AllCandidates, entries)
  {
    hide Mirrors, UniqueKeys;
    if |entries| == 0 {
      MirrorEmpty(m);
    } else {
      var front, last := entries[..|entries| - 1], entries[|entries| - 1];
      var key := last.value.key;
      assert entries == front + [last];
      MirrorFront(m, front, last);
      MirrorSize(m - {key}, front);
      RowRemoved(m, key);
    }
  }
}
