/** The transfer store under its three locks, in every interleaving of its threads. */
module TransferRuns {
  import opened Common
  import opened TransferStore

  // ----- What every lock section keeps -----

  ghost predicate StoreOk(s: Store) {
    && UniqueIds(s.records) && |s.records| + s.pending <= MAX_RECORDS && s.revision >= 1
    && forall r :: r in s.records ==> Sound(r)
  }

  /** Records that have ended stay as they are. */
  ghost predicate Frozen(before: seq<Record>, after: seq<Record>) {
    forall r :: r in before && Terminal(r.state) ==> r in after
  }

  /** The event, if there is one, is all that tells the new records from the old. */
  ghost predicate Tells(before: Store, after: Store, event: Option<Payload>) {
    if event.None? then after.records == before.records && after.revision == before.revision
    else
      && after.revision == event.value.revision == before.revision + 1
      && forall m: Table :: Mirrors(m, before.records) ==> Mirrors(Applied(m, event.value), after.records)
  }

  ghost predicate SectionOk(s: Store, sec: Section) {
    StoreOk(sec.store) && Frozen(s.records, sec.store.records) && Tells(s, sec.store, sec.event)
      && sec.store.open == s.open
  }

  lemma AddedOk(s: Store, r: Record)
    requires StoreOk(s) && Sound(r) && Find(s.records, r.id) == |s.records| && |s.records| + s.pending < MAX_RECORDS
    ensures SectionOk(s, Added(s, r))
  {
    var after := s.records + [r];
    forall m: Table | Mirrors(m, s.records) ensures Mirrors(m[r.id := r], after) {
      forall id: seq<u8> ensures Shows(m[r.id := r], id) == Lookup(after, id) {
        LookupAppend(s.records, r, id);
        assert Shows(m, id) == Lookup(s.records, id);
      }
    }
  }

  lemma ReplacedOk(s: Store, i: nat, r: Record)
    requires StoreOk(s) && i < |s.records| && Sound(r) && r.id == s.records[i].id && !Terminal(s.records[i].state)
    ensures SectionOk(s, Replaced(s, i, r))
  {
    var after := s.records[i := r];
    LookupReplace(s.records, i, r, []);
    forall m: Table | Mirrors(m, s.records) ensures Mirrors(m[r.id := r], after) {
      forall id: seq<u8> ensures Shows(m[r.id := r], id) == Lookup(after, id) {
        LookupReplace(s.records, i, r, id);
        assert Shows(m, id) == Lookup(s.records, id);
      }
    }
    forall x | x in s.records && Terminal(x.state) ensures x in after {
      var k :| 0 <= k < |s.records| && s.records[k] == x;
      assert after[k] == x;
    }
    forall x | x in after ensures Sound(x) {
      assert x == r || x in s.records;
    }
    hide Find;
  }

  lemma ErasedOk(s: Store, i: nat)
    requires StoreOk(s) && i < |s.records| && !Terminal(s.records[i].state)
    ensures SectionOk(s, Erased(s, i))
  {
    var after, gone := s.records[..i] + s.records[i + 1..], s.records[i].id;
    LookupErase(s.records, i, []);
    forall m: Table | Mirrors(m, s.records) ensures Mirrors(m - {gone}, after) {
      forall id: seq<u8> ensures Shows(m - {gone}, id) == Lookup(after, id) {
        LookupErase(s.records, i, id);
        assert Shows(m, id) == Lookup(s.records, id);
      }
    }
    hide Find;
    forall x | x in s.records && Terminal(x.state) ensures x in after {
      var k :| 0 <= k < |s.records| && s.records[k] == x;
      assert x in s.records[..i] || x in s.records[i + 1..] by {
        assert k < i ==> s.records[..i][k] == x;
        assert k > i ==> s.records[i + 1..][k - i - 1] == x;
      }
    }
  }

  lemma RefusedOk(s: Store)
    requires StoreOk(s)
    ensures SectionOk(s, Refused(s))
  {
  }

  lemma FinishSendOk(s: Store, result: Started, valid: LabelCheck)
    requires StoreOk(s) && s.pending > 0
    ensures SectionOk(s, FinishSend(s, result, valid))
  {
    var t := s.(pending := s.pending - 1);
    hide Find, Mirrors;
    RefusedOk(t);
    if Find(t.records, result.id) == |t.records| {
      AddedOk(t, Record(result.id, false, Queued, NoError, result.total, 0, result.peer));
    }
  }

  lemma FinishOk(s: Store, op: Operation)
    requires StoreOk(s)
    ensures SectionOk(s, Finish(s, op))
  {
    hide Mirrors;
    RefusedOk(s);
    if Admitted(s, op) {
      var i := Find(s.records, op.id);
      assert s.records[i] in s.records;
      match op
      case Accept(_) => ReplacedOk(s, i, s.records[i].(state := Queued));
      case Reject(_) => ErasedOk(s, i);
      case Cancel(_) => ReplacedOk(s, i, s.records[i].(state := Cancelling));
    }
  }

  lemma OfferOk(s: Store, id: seq<u8>, total: u64, peer: seq<u8>, valid: LabelCheck)
    requires StoreOk(s)
    ensures SectionOk(s, Offer(s, id, total, peer, valid))
  {
    hide Mirrors;
    RefusedOk(s);
    if Offer(s, id, total, peer, valid).event.Some? {
      AddedOk(s, Record(id, true, Offered, NoError, total, 0, peer));
    }
  }

  lemma ApplyOk(s: Store, id: seq<u8>, u: Update, transferred: u64)
    requires StoreOk(s)
    ensures SectionOk(s, Apply(s, id, u, transferred))
  {
    hide Mirrors;
    RefusedOk(s);
    var i := Find(s.records, id);
    if Apply(s, id, u, transferred).event.Some? {
      var state := PublicState(u.state);
      ReplacedOk(s, i, s.records[i].(state := state, error := PublicError(u.error, state), transferred := transferred));
    }
  }

  // ----- The end of all records -----

  /** What becomes of a record when the store shuts down. */
  function EndOf(found: Option<Record>): Option<Record> {
    if found.None? || found.value.state == Offered then None
    else if Terminal(found.value.state) then found
    else Some(found.value.(state := Cancelled, error := WasCancelled))
  }

  /** The parts of a list of distinct records. */
  lemma Apart(front: seq<Record>, last: Record, id: seq<u8>)
    requires UniqueIds(front + [last])
    ensures UniqueIds(front) && (last.id == id ==> Lookup(front, id).None?)
  {
    var all := front + [last];
    assert forall i :: 0 <= i < |front| ==> all[i] == front[i];
    assert all[|front|] == last;
  }

  ghost predicate Ended(records: seq<Record>, from: seq<Record>) {
    forall r :: r in records ==> Sound(r) && Terminal(r.state) && Lookup(from, r.id).Some?
  }

  lemma {:induction false} EndRecords(records: seq<Record>, revision: nat)
    requires UniqueIds(records) && forall r :: r in records ==> Sound(r)
    ensures UniqueIds(EndAll(records, revision).records) && Ended(EndAll(records, revision).records, records)
    ensures Frozen(records, EndAll(records, revision).records)
  {
    if |records| > 0 {
      var front, last := records[..|records| - 1], records[|records| - 1];
      assert records == front + [last];
      Apart(front, last, last.id);
      EndRecords(front, revision);
      EndOneOk(EndAll(front, revision), front, last);
    }
  }

  lemma EndOneOk(e: Ending, front: seq<Record>, last: Record)
    requires UniqueIds(e.records) && Ended(e.records, front) && Frozen(front, e.records)
    requires Sound(last) && Lookup(front, last.id).None?
    ensures var f := EndOne(e, last);
            UniqueIds(f.records) && Ended(f.records, front + [last]) && Frozen(front + [last], f.records)
  {
    hide Lookup;
    var f := EndOne(e, last);
    assert forall i :: 0 <= i < |e.records| ==> e.records[i] in e.records;
    forall r | r in f.records ensures Lookup(front + [last], r.id).Some? {
      LookupAppend(front, last, r.id);
    }
  }

  /** The event of one record's end, as the table sees it. */
  lemma EndOneTable(m: Table, e: Ending, last: Record, id: seq<u8>)
    ensures Shows(Fold(m, EndOne(e, last).events), id) ==
            if last.id == id && !Terminal(last.state) then EndOf(Some(last)) else Shows(Fold(m, e.events), id)
  {
    var events := EndOne(e, last).events;
    if |events| > |e.events| {
      assert events[..|events| - 1] == e.events;
    }
  }

  /** The events of the end change the table under one identifier as the end changes its record. */
  lemma {:induction false} EndTable(m: Table, records: seq<Record>, revision: nat, id: seq<u8>)
    requires UniqueIds(records)
    ensures Shows(Fold(m, EndAll(records, revision).events), id) ==
            if Lookup(records, id).None? || Terminal(Lookup(records, id).value.state) then Shows(m, id)
            else EndOf(Lookup(records, id))
  {
    if |records| > 0 {
      var front, last := records[..|records| - 1], records[|records| - 1];
      assert records == front + [last];
      Apart(front, last, id);
      LookupAppend(front, last, id);
      EndTable(m, front, revision, id);
      EndOneTable(m, EndAll(front, revision), last, id);
      hide Lookup, Fold, EndOne, UniqueIds;
    }
  }

  lemma {:induction false} EndLookup(records: seq<Record>, revision: nat, id: seq<u8>)
    requires UniqueIds(records)
    ensures Lookup(EndAll(records, revision).records, id) == EndOf(Lookup(records, id))
  {
    if |records| > 0 {
      var front, last := records[..|records| - 1], records[|records| - 1];
      assert records == front + [last];
      Apart(front, last, id);
      LookupAppend(front, last, id);
      EndLookup(front, revision, id);
      var e := EndAll(front, revision);
      LookupAppend(e.records, last, id);
      LookupAppend(e.records, last.(state := Cancelled, error := WasCancelled), id);
      hide Lookup, UniqueIds;
    }
  }

  /** The events of the end take a table of the records to one of what is left. */
  lemma EndsMirror(m: Table, records: seq<Record>, revision: nat)
    requires UniqueIds(records) && Mirrors(m, records)
    ensures Mirrors(Fold(m, EndAll(records, revision).events), EndAll(records, revision).records)
  {
    forall id: seq<u8>
      ensures Shows(Fold(m, EndAll(records, revision).events), id) == Lookup(EndAll(records, revision).records, id)
    {
      assert Shows(m, id) == Lookup(records, id);
      EndTable(m, records, revision, id);
      EndLookup(records, revision, id);
    }
  }

  /** Events that carry the revisions after `revision`, one after the other. */
  ghost predicate Numbered(events: seq<Payload>, revision: nat) {
    forall k :: 0 <= k < |events| ==> events[k].revision == revision + k + 1
  }

  lemma {:induction false} EndRevisions(records: seq<Record>, revision: nat)
    ensures Numbered(EndAll(records, revision).events, revision)
  {
    if |records| > 0 {
      EndRevisions(records[..|records| - 1], revision);
    }
  }
}
