/** The transfer record store: what each of its lock sections does to the records, the
    revision and the events it owes. */
module TransferStore {
  import opened Common

  const MAX_RECORDS := 256
  const PAGE_CAPACITY := 4
  const MAX_FILE_BYTES: u64 := 17_592_186_044_416

  datatype State = Offered | Queued | Running | Cancelling | Completed | Cancelled | Rejected | Failed

  datatype Error =
    | NoError | WasCancelled | WasRejected | HasFailed | PolicyRejected | NoSpace | Busy | IoFailure | IntegrityFailed
      | TimedOut

  datatype Record = Record(id: seq<u8>, incoming: bool, state: State, error: Error, total: u64, transferred: u64,
                           peer: seq<u8>)

  datatype Change = Upserted | Removed

  /** An event: the change, the revision it made, and the record. */
  datatype Payload = Payload(change: Change, revision: nat, record: Record)

  datatype Store = Store(records: seq<Record>, revision: nat, pending: nat, open: bool)

  const EMPTY := Store([], 1, 0, true)

  predicate Terminal(state: State) {
    state == Completed || state == Cancelled || state == Rejected || state == Failed
  }

  function Find(records: seq<Record>, id: seq<u8>): (i: nat)
    ensures i <= |records| && (i < |records| ==> records[i].id == id)
    ensures forall j :: 0 <= j < i ==> records[j].id != id
  {
    if |records| == 0 || records[0].id == id then 0 else 1 + Find(records[1..], id)
  }

  /** `ValidPeerLabel`. */
  type LabelCheck = seq<u8> -> bool

  // ----- Lock sections: the store afterwards and the event owed for the change, if any -----

  datatype Section = Section(store: Store, event: Option<Payload>)

  function Refused(s: Store): Section {
    Section(s, None)
  }

  function Added(s: Store, r: Record): Section {
    Section(s.(records := s.records + [r], revision := s.revision + 1), Some(Payload(Upserted, s.revision + 1, r)))
  }

  function Replaced(s: Store, i: nat, r: Record): Section
    requires i < |s.records|
  {
    Section(s.(records := s.records[i := r], revision := s.revision + 1), Some(Payload(Upserted, s.revision + 1, r)))
  }

  function Erased(s: Store, i: nat): Section
    requires i < |s.records|
  {
    Section(s.(records := s.records[..i] + s.records[i + 1..], revision := s.revision + 1),
            Some(Payload(Removed, s.revision + 1, s.records[i])))
  }

  /** The first section of `Send`. */
  function Reserve(s: Store): (Store, bool) {
    if !s.open || |s.records| + s.pending >= MAX_RECORDS then (s, false) else (s.(pending := s.pending + 1), true)
  }

  /** What the backend answers to `Send`. */
  datatype Started = Started(ok: bool, id: seq<u8>, total: u64, peer: seq<u8>)

  /** The second section of `Send`. */
  function FinishSend(s: Store, result: Started, valid: LabelCheck): Section
    requires s.pending > 0
  {
    var t := s.(pending := s.pending - 1);
    if !t.open || !result.ok then Refused(t)
    else if AllZero(result.id) || result.total > MAX_FILE_BYTES || !valid(result.peer)
            || Find(t.records, result.id) < |t.records| || |t.records| >= MAX_RECORDS then Refused(t)
    else Added(t, Record(result.id, false, Queued, NoError, result.total, 0, result.peer))
  }

  /** A user operation on a record, besides `Send`. */
  datatype Operation = Accept(id: seq<u8>) | Reject(id: seq<u8>) | Cancel(id: seq<u8>)

  /** The operation applies to the record as it is. */
  predicate Applies(op: Operation, state: State) {
    if op.Cancel? then state != Offered && !Terminal(state) && state != Cancelling else state == Offered
  }

  /** The first section of an operation: whether to call the backend. */
  predicate Admitted(s: Store, op: Operation) {
    var i := Find(s.records, op.id);
    s.open && i < |s.records| && Applies(op, s.records[i].state)
  }

  /** The second section of an operation. */
  function Finish(s: Store, op: Operation): Section {
    var i := Find(s.records, op.id);
    if !Admitted(s, op) then Refused(s)
    else
      match op
      case Accept(_) => Replaced(s, i, s.records[i].(state := Queued))
      case Reject(_) => Erased(s, i)
      case Cancel(_) => Replaced(s, i, s.records[i].(state := Cancelling))
  }

  function Offer(s: Store, id: seq<u8>, total: u64, peer: seq<u8>, valid: LabelCheck): Section {
    if AllZero(id) || total > MAX_FILE_BYTES || !valid(peer) || !s.open || Find(s.records, id) < |s.records|
       || |s.records| + s.pending >= MAX_RECORDS then Refused(s)
    else Added(s, Record(id, true, Offered, NoError, total, 0, peer))
  }

  /** An offer that is already there as it is, which `ApplyIncomingOffer` also answers with success. */
  predicate Repeats(s: Store, id: seq<u8>, total: u64, peer: seq<u8>, valid: LabelCheck) {
    var i := Find(s.records, id);
    && !AllZero(id) && total <= MAX_FILE_BYTES && valid(peer) && s.open && i < |s.records|
    && s.records[i].state == Offered && s.records[i].total == total && s.records[i].peer == peer
  }

  /** States of the transfer core, those that are shown alike taken together. */
  datatype CoreState = CoreCreated | CoreWorking | CoreCancelling | CoreCompleted | CoreCancelled | CoreRejected
      | CoreFailed

  function PublicState(state: CoreState): State {
    match state
    case CoreCreated => Queued
    case CoreWorking => Running
    case CoreCancelling => Cancelling
    case CoreCompleted => Completed
    case CoreCancelled => Cancelled
    case CoreRejected => Rejected
    case CoreFailed => Failed
  }

  /** `PublicError`; `error` is what the core's error is shown as, unless the state decides. */
  function PublicError(error: Error, state: State): Error {
    if state == Completed then NoError
    else if state == Cancelled then WasCancelled
    else if state == Rejected then WasRejected
    else if error == NoError && state == Failed then HasFailed
    else error
  }

  datatype Update = Update(state: CoreState, error: Error, terminal: bool)

  /** The checks of `Apply` on a record and an update. */
  predicate Fits(r: Record, u: Update, transferred: u64) {
    var state := PublicState(u.state);
    var error := PublicError(u.error, state);
    var failure := state == Failed || state == Rejected;
    && r.state != Offered && !Terminal(r.state) && r.transferred <= transferred <= r.total
    && (state == Completed ==> transferred == r.total) && Terminal(state) == u.terminal
    && (failure ==> error != NoError) && (!failure && state != Cancelled ==> error == NoError)
  }

  function Apply(s: Store, id: seq<u8>, u: Update, transferred: u64): Section {
    var i := Find(s.records, id);
    if !s.open || i == |s.records| || !Fits(s.records[i], u, transferred) then Refused(s)
    else
      var state := PublicState(u.state);
      Replaced(s, i, s.records[i].(state := state, error := PublicError(u.error, state), transferred := transferred))
  }

  /** The last section of `Shutdown`: offers go, what is under way is cancelled, what has ended stays. */
  datatype Ending = Ending(records: seq<Record>, revision: nat, events: seq<Payload>)

  function EndOne(e: Ending, r: Record): Ending {
    if r.state == Offered then Ending(e.records, e.revision + 1, e.events + [Payload(Removed, e.revision + 1, r)])
    else if Terminal(r.state) then e.(records := e.records + [r])
    else
      var ended := r.(state := Cancelled, error := WasCancelled);
      Ending(e.records + [ended], e.revision + 1, e.events + [Payload(Upserted, e.revision + 1, ended)])
  }

  function EndAll(records: seq<Record>, revision: nat): (e: Ending)
    ensures e.revision == revision + |e.events| && |e.records| <= |records|
  {
    if |records| == 0 then Ending([], revision, [])
    else EndOne(EndAll(records[..|records| - 1], revision), records[|records| - 1])
  }

  // ----- Snapshots -----

  datatype Page = Page(revision: nat, offset: nat, total: nat, records: seq<Record>)

  datatype SnapshotResult = InvalidArgument | StaleSnapshot | PageRead(page: Page)

  function Snapshot(s: Store, expected: nat, offset: nat): SnapshotResult {
    if expected == 0 && offset != 0 then InvalidArgument
    else if expected != 0 && expected != s.revision then StaleSnapshot
    else if offset > |s.records| then InvalidArgument
    else PageRead(Page(s.revision, offset, |s.records|, s.records[offset..Min(|s.records|, offset + PAGE_CAPACITY)]))
  }

  // ----- Records by identifier -----

  ghost predicate UniqueIds(records: seq<Record>) {
    forall i, j :: 0 <= i < j < |records| ==> records[i].id != records[j].id
  }

  predicate Sound(r: Record) {
    r.transferred <= r.total && (r.state == Completed ==> r.transferred == r.total)
  }

  function Lookup(records: seq<Record>, id: seq<u8>): (r: Option<Record>)
    ensures r.Some? ==> r.value in records && r.value.id == id
  {
    var i := Find(records, id);
    if i < |records| then Some(records[i]) else None
  }

  type Table = map<seq<u8>, Record>

  function Applied(m: Table, p: Payload): Table {
    if p.change == Removed then m - {p.record.id} else m[p.record.id := p.record]
  }

  /** What the event stream makes of a table. */
  function Fold(m: Table, events: seq<Payload>): Table {
    if |events| == 0 then m else Applied(Fold(m, events[..|events| - 1]), events[|events| - 1])
  }

  function Shows(m: Table, id: seq<u8>): Option<Record> {
    if id in m then Some(m[id]) else None
  }

  /** `m` holds exactly the records. */
  ghost predicate Mirrors(m: Table, records: seq<Record>) {
    forall id: seq<u8> :: Shows(m, id) == Lookup(records, id)
  }

  lemma LookupAppend(records: seq<Record>, r: Record, id: seq<u8>)
    ensures Lookup(records + [r], id) ==
            if Lookup(records, id).Some? then Lookup(records, id) else if r.id == id then Some(r) else None
  {
    var all := records + [r];
    assert forall j :: 0 <= j < |records| ==> all[j] == records[j];
    assert all[|records|] == r;
    if Find(records, id) < |records| {
      assert Find(all, id) == Find(records, id);
    } else {
      assert Find(all, id) >= |records|;
    }
  }

  lemma LookupReplace(records: seq<Record>, i: nat, r: Record, id: seq<u8>)
    requires i < |records| && r.id == records[i].id && UniqueIds(records)
    ensures UniqueIds(records[i := r])
    ensures Lookup(records[i := r], id) == if id == r.id then Some(r) else Lookup(records, id)
  {
    var after := records[i := r];
    assert forall j :: 0 <= j < |records| ==> after[j].id == records[j].id;
    assert Find(after, id) == Find(records, id);
  }

  lemma LookupErase(records: seq<Record>, i: nat, id: seq<u8>)
    requires i < |records| && UniqueIds(records)
    ensures var after := records[..i] + records[i + 1..];
            UniqueIds(after) && Lookup(after, id) == if id == records[i].id then None else Lookup(records, id)
  {
    var after := records[..i] + records[i + 1..];
    assert forall j :: 0 <= j < |after| ==> after[j] == records[if j < i then j else j + 1];
    var k := Find(records, id);
    if id != records[i].id && k < |records| {
      assert after[if k < i then k else k - 1] == records[k];
      assert Find(after, id) == if k < i then k else k - 1;
    } else {
      assert Find(after, id) == |after|;
    }
  }
}
