/** The transfer store as an object: its records changed in place, one lock section a method. */
module TransferClass {
  import opened Common
  import opened TransferStore

  class TransferBridge {
    const valid: LabelCheck
    var records: seq<Record>
    var revision: nat
    var pendingStarts: nat
    var updatesOpen: bool

    ghost function View(): Store
      reads this
    {
      Store(records, revision, pendingStarts, updatesOpen)
    }

    constructor (valid: LabelCheck)
      ensures View() == EMPTY && this.valid == valid
    {
      this.valid := valid;
      records, revision, pendingStarts, updatesOpen := [], 1, 0, true;
    }

    method ReserveStart() returns (ok: bool)
      modifies this`pendingStarts
      ensures (View(), ok) == Reserve(old(View()))
    {
      if !updatesOpen || |records| + pendingStarts >= MAX_RECORDS {
        return false;
      }
      pendingStarts := pendingStarts + 1;
      return true;
    }

    method CompleteSend(result: Started) returns (event: Option<Payload>)
      requires pendingStarts > 0
      modifies this
      ensures Section(View(), event) == FinishSend(old(View()), result, valid)
    {
      pendingStarts := pendingStarts - 1;
      if !updatesOpen || !result.ok {
        return None;
      }
      if AllZero(result.id) || result.total > MAX_FILE_BYTES || !valid(result.peer)
         || Find(records, result.id) < |records|
         || |records| >= MAX_RECORDS {
        return None;
      }
      var record := Record(result.id, false, Queued, NoError, result.total, 0, result.peer);
      records := records + [record];
      revision := revision + 1;
      return Some(Payload(Upserted, revision, record));
    }

    /** The second section of `Accept`, `Reject` and `Cancel`. */
    method Complete(op: Operation) returns (event: Option<Payload>)
      modifies this`records, this`revision
      ensures Section(View(), event) == Finish(old(View()), op)
    {
      var i := Find(records, op.id);
      if !updatesOpen || i == |records| || !Applies(op, records[i].state) {
        return None;
      }
      revision := revision + 1;
      if op.Reject? {
        event := Some(Payload(Removed, revision, records[i]));
        records := records[..i] + records[i + 1..];
        return;
      }
      records := records[i := records[i].(state := if op.Accept? then Queued else Cancelling)];
      return Some(Payload(Upserted, revision, records[i]));
    }

    method ApplyIncomingOffer(id: seq<u8>, total: u64, peer: seq<u8>) returns (taken: bool, event: Option<Payload>)
      modifies this`records, this`revision
      ensures Section(View(), event) == Offer(old(View()), id, total, peer, valid)
      ensures taken <==> event.Some? || Repeats(old(View()), id, total, peer, valid)
    {
      if AllZero(id) || total > MAX_FILE_BYTES || !valid(peer) {
        return false, None;
      }
      if !updatesOpen {
        return false, None;
      }
      var i := Find(records, id);
      if i < |records| {
        return records[i].state == Offered && records[i].total == total && records[i].peer == peer, None;
      }
      if |records| + pendingStarts >= MAX_RECORDS {
        return false, None;
      }
      var record := Record(id, true, Offered, NoError, total, 0, peer);
      records := records + [record];
      revision := revision + 1;
      return true, Some(Payload(Upserted, revision, record));
    }

    method ApplyUpdate(id: seq<u8>, u: Update, transferred: u64) returns (event: Option<Payload>)
      modifies this`records, this`revision
      ensures Section(View(), event) == Apply(old(View()), id, u, transferred)
    {
      if !updatesOpen {
        return None;
      }
      var i := Find(records, id);
      if i == |records| || records[i].state == Offered || Terminal(records[i].state)
         || transferred < records[i].transferred
         || transferred > records[i].total {
        return None;
      }
      var state := PublicState(u.state);
      if (state == Completed && transferred != records[i].total) || (!Terminal(state) && u.terminal)
         || (Terminal(state) && !u.terminal) {
        return None;
      }
      var error := PublicError(u.error, state);
      var failure := state == Failed || state == Rejected;
      if (failure && error == NoError) || (!failure && state != Cancelled && error != NoError) {
        return None;
      }
      records := records[i := records[i].(state := state, error := error, transferred := transferred)];
      revision := revision + 1;
      return Some(Payload(Upserted, revision, records[i]));
    }

    /** The last section of `Shutdown`: one pass over the records, erasing and changing as it goes. */
    method EndRecords() returns (events: seq<Payload>)
      modifies this`records, this`revision
      ensures var end := EndAll(old(records), old(revision));
              records == end.records && revision == end.revision && events == end.events
    {
      events := [];
      var i := 0;
      ghost var result := EndAll(records, revision);
      ghost var done: seq<Record>, rest := [], records;
      EndsForward(records, revision);
      hide EndAll, EndOne, EndFrom;
      while i < |records|
        invariant i == |done| && records == done + rest
        invariant result == EndFrom(Ending(done, revision, events), rest)
        decreases |rest|
      {
        ghost var end := EndOne(Ending(done, revision, events), rest[0]);
        FromStep(Ending(done, revision, events), rest);
        i, events := EndAt(i, events, done, rest);
        done, rest := end.records, rest[1..];
      }
      assert rest == [];
      FromNone(Ending(done, revision, events));
      assert done + [] == done;
    }

    /** One turn of the pass: what happens to the record at `i`, and where the next one is. */
    method EndAt(i: nat, events: seq<Payload>, ghost done: seq<Record>, ghost rest: seq<Record>)
      returns (next: nat, more: seq<Payload>)
      requires i == |done| && |rest| > 0 && records == done + rest
      modifies this`records, this`revision
      ensures var end := EndOne(Ending(done, old(revision), events), rest[0]);
              records == end.records + rest[1..] && revision == end.revision && more == end.events
                && next == |end.records|
    {
      Cursor(done, rest);
      next, more := i, events;
      var record := records[i];
      if record.state == Offered {
        revision := revision + 1;
        more := more + [Payload(Removed, revision, record)];
        records := records[..i] + records[i + 1..];
        return;
      }
      if !Terminal(record.state) {
        record := record.(state := Cancelled, error := WasCancelled);
        records := records[i := record];
        revision := revision + 1;
        more := more + [Payload(Upserted, revision, record)];
      }
      assert records == done + [record] + rest[1..];
      next := i + 1;
    }

    method ReadPage(expected: nat, offset: nat) returns (result: SnapshotResult)
      ensures result == Snapshot(View(), expected, offset)
    {
      if expected == 0 && offset != 0 {
        return InvalidArgument;
      }
      if expected != 0 && expected != revision {
        return StaleSnapshot;
      }
      if offset > |records| {
        return InvalidArgument;
      }
      var page: seq<Record>, index := [], offset;
      while index < |records| && |page| < PAGE_CAPACITY
        invariant offset <= index <= |records| && |page| <= PAGE_CAPACITY && page == records[offset..index]
      {
        page := page + [records[index]];
        index := index + 1;
      }
      return PageRead(Page(revision, offset, |records|, page));
    }
  }

  /** The pass from the front, record by record. */
  function EndFrom(e: Ending, rest: seq<Record>): Ending
    decreases |rest|
  {
    if |rest| == 0 then e else EndFrom(EndOne(e, rest[0]), rest[1..])
  }

  lemma FromStep(e: Ending, rest: seq<Record>)
    requires |rest| > 0
    ensures EndFrom(e, rest) == EndFrom(EndOne(e, rest[0]), rest[1..])
  {
  }

  lemma FromNone(e: Ending)
    ensures EndFrom(e, []) == e
  {
  }

  lemma {:induction false} FromAppend(e: Ending, rest: seq<Record>, r: Record)
    ensures EndFrom(e, rest + [r]) == EndOne(EndFrom(e, rest), r)
    decreases |rest|
  {
    hide EndOne;
    if |rest| == 0 {
      assert rest + [r] == [r] && [r][1..] == [];
    } else {
      assert (rest + [r])[1..] == rest[1..] + [r];
      FromAppend(EndOne(e, rest[0]), rest[1..], r);
    }
  }

  lemma {:induction false} EndsForward(records: seq<Record>, revision: nat)
    ensures EndFrom(Ending([], revision, []), records) == EndAll(records, revision)
  {
    if |records| > 0 {
      var front, last := records[..|records| - 1], records[|records| - 1];
      EndsForward(front, revision);
      FromAppend(Ending([], revision, []), front, last);
      assert records == front + [last];
    }
  }

  /** A list seen from a place in it: what lies before, what lies there and after. */
  lemma Cursor(done: seq<Record>, rest: seq<Record>)
    requires |rest| > 0
    ensures var all, i := done + rest, |done|; all[i] == rest[0] && all[..i] == done && all[i + 1..] == rest[1..]
    ensures rest == [rest[0]] + rest[1..]
  {
  }
}
