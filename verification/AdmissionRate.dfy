/** How many handshakes pairing admission lets through: a bound over every run and every
    window of it, although idle source buckets are deleted and made again. */
module AdmissionRate {
  import opened Common
  import opened AdmissionBuckets
  import opened Admission

  /** What is being counted: all handshakes, or those of one source. */
  datatype Meter = Everything | OneSource(source: seq<u8>)

  function SizeOf(meter: Meter): Size {
    if meter == Everything then WholeProcess else PerSource
  }

  function BucketOf(buckets: seq<SourceBucket>, source: seq<u8>): Option<Bucket> {
    var k := FindBucket(buckets, source);
    if k < |buckets| then Some(buckets[k].bucket) else None
  }

  /** The bucket behind a meter, if it exists. */
  function Behind(s: State, meter: Meter): Option<Bucket> {
    if meter == Everything then if s.initialized then Some(s.global) else None else BucketOf(s.buckets, meter.source)
  }

  /** A bucket that does not exist counts as a full one at the present time. */
  function Level(s: State, meter: Meter, now: u64): Bucket {
    if Behind(s, meter).Some? then Behind(s, meter).value else Full(SizeOf(meter), now)
  }

  ghost predicate UniqueSources(buckets: seq<SourceBucket>) {
    forall i, j :: 0 <= i < j < |buckets| ==> buckets[i].source != buckets[j].source
  }

  predicate InTime(b: Bucket, size: Size, now: u64) {
    b.last <= now && b.tokens <= Capacity(size)
  }

  /** No bucket was refilled later than `now` or holds more than its capacity. */
  ghost predicate TimeOk(s: State, now: u64) {
    && UniqueSources(s.buckets) && (s.initialized ==> InTime(s.global, WholeProcess, now))
    && forall i :: 0 <= i < |s.buckets| ==> InTime(s.buckets[i].bucket, PerSource, now)
  }

  /** The books balance: `admitted` handshakes since `base`. */
  ghost predicate Books(s: State, meter: Meter, base: u64, admitted: nat, now: u64) {
    TimeOk(s, now) && Paid(Level(s, meter, now), base, admitted, SizeOf(meter))
  }

  // ----- Pruning -----

  lemma {:induction false} BucketAppend(front: seq<SourceBucket>, last: SourceBucket, source: seq<u8>)
    ensures BucketOf(front + [last], source) ==
            if BucketOf(front, source).Some? then BucketOf(front, source)
            else if last.source == source then Some(last.bucket) else None
  {
    var all := front + [last];
    assert forall j :: 0 <= j < |front| ==> all[j] == front[j];
    assert all[|front|] == last;
    var i := FindBucket(all, source);
    if FindBucket(front, source) < |front| {
      assert i == FindBucket(front, source);
    } else {
      assert i >= |front|;
    }
  }

  lemma BucketUpdate(buckets: seq<SourceBucket>, k: nat, b: SourceBucket, source: seq<u8>)
    requires k < |buckets| && b.source == buckets[k].source && k == FindBucket(buckets, b.source)
    ensures BucketOf(buckets[k := b], source) == if source == b.source then Some(b.bucket)
            else BucketOf(buckets, source)
  {
    var after := buckets[k := b];
    assert forall j :: 0 <= j < |buckets| ==> after[j].source == buckets[j].source;
    assert FindBucket(after, source) == FindBucket(buckets, source);
  }

  lemma BucketRefilled(buckets: seq<SourceBucket>, now: u64, source: seq<u8>)
    ensures BucketOf(RefillAll(buckets, now), source) ==
            if BucketOf(buckets, source).Some? then Some(Refill(BucketOf(buckets, source).value, now, PerSource))
              else None
  {
    var r := RefillAll(buckets, now);
    assert forall j :: 0 <= j < |buckets| ==> r[j].source == buckets[j].source;
    assert FindBucket(r, source) == FindBucket(buckets, source);
  }

  /** Every bucket kept was there, and sources stay distinct. */
  lemma {:induction false} DroppedFrom(buckets: seq<SourceBucket>, entries: seq<Entry>)
    requires UniqueSources(buckets)
    ensures forall b :: b in DropIdle(buckets, entries) ==> b in buckets
    ensures UniqueSources(DropIdle(buckets, entries))
  {
    if |buckets| > 0 {
      var front, last := buckets[..|buckets| - 1], buckets[|buckets| - 1];
      assert forall i :: 0 <= i < |front| ==> front[i] == buckets[i];
      DroppedFrom(front, entries);
      var kept := DropIdle(front, entries);
      forall i | 0 <= i < |kept| ensures kept[i].source != last.source {
        assert kept[i] in front;
      }
    }
  }

  /** Only full buckets of inactive sources are dropped. */
  lemma {:induction false} BucketDropped(buckets: seq<SourceBucket>, entries: seq<Entry>, source: seq<u8>)
    requires UniqueSources(buckets)
    ensures BucketOf(DropIdle(buckets, entries), source) == BucketOf(buckets, source)
            || (BucketOf(DropIdle(buckets, entries), source).None? && BucketOf(buckets, source).Some?
                && BucketOf(buckets, source).value.tokens == Capacity(PerSource))
  {
    if |buckets| > 0 {
      var front, last := buckets[..|buckets| - 1], buckets[|buckets| - 1];
      assert forall i :: 0 <= i < |front| ==> front[i] == buckets[i];
      assert buckets == front + [last];
      BucketDropped(front, entries, source);
      BucketAppend(front, last, source);
      BucketAppend(DropIdle(front, entries), last, source);
      assert last.source == source ==> BucketOf(front, source).None?;
    }
  }

  // ----- Steps -----

  lemma RefillInTime(b: Bucket, now: u64, clock: u64, size: Size)
    requires InTime(b, size, clock) && clock <= now
    ensures InTime(Refill(b, now, size), size, now)
  {
    RefillExact(b, now, size);
  }

  lemma PreparedTime(s: State, clock: u64, now: u64)
    requires TimeOk(s, clock) && clock <= now
    ensures TimeOk(Prepared(s, now), now)
  {
    var t, r := Initialized(s, now), RefillAll(s.buckets, now);
    RefillInTime(t.global, now, if s.initialized then clock else now, WholeProcess);
    forall i | 0 <= i < |r| ensures InTime(r[i].bucket, PerSource, now) {
      RefillInTime(s.buckets[i].bucket, now, clock, PerSource);
    }
    assert UniqueSources(r);
    DroppedFrom(r, s.entries);
    var p := DropIdle(r, s.entries);
    hide DropIdle, Refill;
    forall i | 0 <= i < |p| ensures InTime(p[i].bucket, PerSource, now) {
      assert p[i] in r;
    }
  }

  /** Waiting costs nothing. */
  lemma WaitBooks(s: State, meter: Meter, base: u64, admitted: nat, clock: u64, now: u64)
    requires Books(s, meter, base, admitted, clock) && clock <= now
    ensures Books(s, meter, base, admitted, now)
  {
    if Behind(s, meter).None? {
      FullPaid(Level(s, meter, clock), now, base, admitted, SizeOf(meter));
    }
  }

  /** What is behind a meter once the buckets are up to date: refilled, or gone because full. */
  lemma PreparedLevel(s: State, meter: Meter, clock: u64, now: u64)
    requires TimeOk(s, clock) && clock <= now
    ensures var before, after := Behind(s, meter), Level(Prepared(s, now), meter, now);
            if before.None? then after == Full(SizeOf(meter), now)
            else
              var r := Refill(before.value, now, SizeOf(meter));
              after == r || (r.tokens == Capacity(SizeOf(meter)) && after == Full(SizeOf(meter), now))
  {
    if meter != Everything {
      BucketRefilled(s.buckets, now, meter.source);
      assert UniqueSources(RefillAll(s.buckets, now));
      BucketDropped(RefillAll(s.buckets, now), s.entries, meter.source);
    }
  }

  lemma PreparedBooks(s: State, meter: Meter, base: u64, admitted: nat, clock: u64, now: u64)
    requires Books(s, meter, base, admitted, clock) && clock <= now
    ensures Books(Prepared(s, now), meter, base, admitted, now)
  {
    PreparedTime(s, clock, now);
    PreparedLevel(s, meter, clock, now);
    WaitBooks(s, meter, base, admitted, clock, now);
    var level, size := Level(s, meter, now), SizeOf(meter);
    RefillPaid(level, now, base, admitted, size);
    RefillExact(level, now, size);
    hide Refill, Prepared, Level;
    if Refill(level, now, size).tokens == Capacity(size) {
      FullPaid(Refill(level, now, size), now, base, admitted, size);
    }
  }

  /** An up-to-date level lies less than an interval back. */
  lemma PreparedRecent(s: State, meter: Meter, clock: u64, now: u64)
    requires TimeOk(s, clock) && clock <= now
    ensures now - Interval(SizeOf(meter)) < Level(Prepared(s, now), meter, now).last <= now
    ensures Level(Prepared(s, now), meter, now).tokens <= Capacity(SizeOf(meter))
  {
    PreparedLevel(s, meter, clock, now);
    if Behind(s, meter).Some? {
      RefillExact(Behind(s, meter).value, now, SizeOf(meter));
    }
    hide Refill, Prepared, Level;
  }

  /** One handshake let through, as the meter counts. */
  function Counted(source: seq<u8>, lease: Option<u64>, meter: Meter): nat {
    if lease.Some? && (meter == Everything || meter.source == source) then 1 else 0
  }

  lemma TrackedBooks(s: State, source: seq<u8>, meter: Meter, base: u64, admitted: nat, now: u64)
    requires Books(s, meter, base, admitted, now) && Tracked(s, source, now).Some?
    ensures Books(Tracked(s, source, now).value, meter, base, admitted, now)
  {
    if meter != Everything {
      BucketAppend(s.buckets, SourceBucket(source, Full(PerSource, now)), meter.source);
    }
  }

  lemma GrantBooks(s: State, k: nat, e: Entry, meter: Meter, base: u64, admitted: nat, now: u64)
    requires Books(s, meter, base, admitted, now) && s.initialized
    requires k < |s.buckets| && s.global.tokens > 0 && s.buckets[k].bucket.tokens > 0
    requires k == FindBucket(s.buckets, e.source)
    ensures Books(Grant(s, k, e), meter, base, admitted + Counted(e.source, Some(0), meter), now)
  {
    if meter != Everything {
      BucketUpdate(s.buckets, k, Taken(s.buckets[k]), meter.source);
    }
  }

  lemma ReservePreparedBooks(s: State, owner: u64, id: seq<u8>, source: seq<u8>, user: bool, meter: Meter, base: u64,
                             admitted: nat, now: u64)
    requires Books(s, meter, base, admitted, now) && s.initialized
    ensures var (t, lease) := ReservePrepared(s, owner, id, source, user, now);
            Books(t, meter, base, admitted + Counted(source, lease, meter), now)
  {
    hide Books, Crowded;
    var tracked := Tracked(s, source, now);
    if tracked.Some? {
      var t := tracked.value;
      TrackedBooks(s, source, meter, base, admitted, now);
      var k := FindBucket(t.buckets, source);
      if k < |t.buckets| && t.buckets[k].bucket.tokens > 0 && t.global.tokens > 0 {
        GrantBooks(t, k, NewEntry(t, owner, id, source, user, now), meter, base, admitted, now);
      }
    }
  }

  // ----- Runs -----

  /** The time after a command; only some are told the time. */
  function At(clock: u64, command: Command): u64 {
    if command.Open? || command.Reserving? then command.now else clock
  }

  function ClockAfter(clock: u64, commands: seq<Command>): u64
    decreases |commands|
  {
    if |commands| == 0 then clock else ClockAfter(At(clock, commands[0]), commands[1..])
  }

  /** The clock does not go back. */
  predicate Monotone(clock: u64, commands: seq<Command>)
    decreases |commands|
  {
    |commands| == 0 || (At(clock, commands[0]) >= clock && Monotone(At(clock, commands[0]), commands[1..]))
  }

  function Admits(s: State, command: Command, meter: Meter): (r: nat)
    ensures r <= 1 && (r == 1 ==> command.Reserving?)
  {
    if !command.Reserving? then 0
    else Counted(command.source, Reserve(s, command.owner, command.id, command.source, command.user, command.now).1,
                 meter)
  }

  /** How many handshakes a run lets through, as the meter counts. */
  function Admitted(s: State, commands: seq<Command>, meter: Meter): nat
    decreases |commands|
  {
    if |commands| == 0 then 0 else Admits(s, commands[0], meter) + Admitted(Step(s, commands[0]), commands[1..], meter)
  }

  lemma SameBooks(s: State, t: State, meter: Meter, base: u64, admitted: nat, now: u64)
    requires Books(s, meter, base, admitted, now)
    requires t.initialized == s.initialized && t.global == s.global && t.buckets == s.buckets
    ensures Books(t, meter, base, admitted, now)
  {
  }

  lemma OpenBooks(s: State, owner: u64, now: u64, duration: u64, meter: Meter, base: u64, admitted: nat)
    requires Books(s, meter, base, admitted, now)
    ensures Books(OpenWindow(s, owner, now, duration).0, meter, base, admitted, now)
  {
  }

  lemma ReserveBooks(s: State, command: Command, meter: Meter, base: u64, admitted: nat, clock: u64)
    requires Books(s, meter, base, admitted, clock) && command.Reserving? && command.now >= clock
    ensures Books(Step(s, command), meter, base, admitted + Admits(s, command, meter), command.now)
  {
    hide ReservePrepared, Prepared, Books, Find, FindOwner;
    WaitBooks(s, meter, base, admitted, clock, command.now);
    PreparedBooks(s, meter, base, admitted, clock, command.now);
    ReservePreparedBooks(Prepared(s, command.now), command.owner, command.id, command.source, command.user, meter, base,
                         admitted, command.now);
  }

  /** Only reservations and windows touch the buckets. */
  lemma OtherBuckets(s: State, command: Command)
    requires !command.Reserving? && !command.Open?
    ensures var t := Step(s, command); t.initialized == s.initialized && t.global == s.global && t.buckets == s.buckets
  {
    hide Without, WithoutOwner, Find, FindOwner, MayBind, FindDuplicate, Yields, Count, Holds;
  }

  /** Every operation keeps the books. */
  lemma StepBooks(s: State, command: Command, meter: Meter, base: u64, admitted: nat, clock: u64)
    requires Books(s, meter, base, admitted, clock) && At(clock, command) >= clock
    ensures Books(Step(s, command), meter, base, admitted + Admits(s, command, meter), At(clock, command))
  {
    hide Books, OpenWindow, Reserve;
    if command.Reserving? {
      ReserveBooks(s, command, meter, base, admitted, clock);
    } else if command.Open? {
      WaitBooks(s, meter, base, admitted, clock, command.now);
      OpenBooks(s, command.owner, command.now, command.duration, meter, base, admitted);
    } else {
      OtherBuckets(s, command);
      SameBooks(s, Step(s, command), meter, base, admitted, clock);
    }
  }

  lemma {:induction false} RunBooks(s: State, commands: seq<Command>, meter: Meter, base: u64, admitted: nat,
                                    clock: u64)
    requires Books(s, meter, base, admitted, clock) && Monotone(clock, commands)
    ensures Books(Execute(s, commands), meter, base, admitted + Admitted(s, commands, meter),
                  ClockAfter(clock, commands))
    ensures ClockAfter(clock, commands) >= clock
    decreases |commands|
  {
    hide Step, Admits, Books;
    if |commands| > 0 {
      StepBooks(s, commands[0], meter, base, admitted, clock);
      RunBooks(Step(s, commands[0]), commands[1..], meter, base, admitted + Admits(s, commands[0], meter),
               At(clock, commands[0]));
    }
  }

  /** From the making of a bucket: never more than its capacity and one for each interval since. */
  lemma RateFromCreation(s: State, commands: seq<Command>, meter: Meter, clock: u64)
    requires TimeOk(s, clock) && Behind(s, meter).None? && Monotone(clock, commands)
    ensures ClockAfter(clock, commands) >= clock
    ensures Admitted(s, commands, meter) <=
            Capacity(SizeOf(meter)) + Intervals(SizeOf(meter), ClockAfter(clock, commands) - clock)
  {
    hide Step, Admits, Execute, Admitted, ClockAfter, Monotone;
    assert Books(s, meter, clock, 0, clock);
    RunBooks(s, commands, meter, clock, 0, clock);
    var end := ClockAfter(clock, commands);
    PaidBound(Level(Execute(s, commands), meter, end), end, clock, Admitted(s, commands, meter), SizeOf(meter));
  }

  /** The books can be opened at a reservation, on buckets brought up to the present. */
  lemma GrantOpensBooks(s: State, command: Command, meter: Meter, clock: u64) returns (base: u64)
    requires TimeOk(s, clock) && Admits(s, command, meter) == 1 && At(clock, command) >= clock
    ensures command.now - Interval(SizeOf(meter)) < base <= command.now
    ensures Books(Step(s, command), meter, base, 1, command.now)
  {
    var now := command.now;
    PreparedRecent(s, meter, clock, now);
    PreparedTime(s, clock, now);
    base := Level(Prepared(s, now), meter, now).last;
    assert Books(Prepared(s, now), meter, base, 0, now);
    ReservePreparedBooks(Prepared(s, now), command.owner, command.id, command.source, command.user, meter, base, 0,
                         now);
    hide ReservePrepared, Prepared, Books, Find, FindOwner;
  }

  lemma StepTime(s: State, command: Command, clock: u64)
    requires TimeOk(s, clock) && At(clock, command) >= clock
    ensures TimeOk(Step(s, command), At(clock, command))
  {
    var level := Level(s, Everything, clock);
    assert Books(s, Everything, level.last, 0, clock);
    StepBooks(s, command, Everything, level.last, 0, clock);
    hide Step;
  }

  /** In any window of a run: never more than the capacity, one, and one for each interval of the window. */
  lemma {:induction false} RateInWindow(s: State, commands: seq<Command>, meter: Meter, clock: u64)
    requires TimeOk(s, clock) && Monotone(clock, commands)
    ensures ClockAfter(clock, commands) >= clock
    ensures Admitted(s, commands, meter) <=
            Capacity(SizeOf(meter)) + 1 + Intervals(SizeOf(meter), ClockAfter(clock, commands) - clock)
    decreases |commands|
  {
    hide Step, Admits, TimeOk, Books, Execute, Intervals;
    if |commands| > 0 {
      var first, rest, size := commands[0], commands[1..], SizeOf(meter);
      var now, end := At(clock, first), ClockAfter(clock, commands);
      StepTime(s, first, clock);
      RateInWindow(Step(s, first), rest, meter, now);
      if Admits(s, first, meter) == 1 {
        var base := GrantOpensBooks(s, first, meter, clock);
        RunBooks(Step(s, first), rest, meter, base, 1, now);
        BooksWindow(Execute(Step(s, first), rest), now, end, base, Admitted(s, commands, meter), meter);
      }
      IntervalsExact(size, end - now, now - clock);
    }
  }

  lemma BooksWindow(s: State, from: u64, now: u64, base: u64, admitted: nat, meter: Meter)
    requires Books(s, meter, base, admitted, now) && base <= from <= now && from - base < Interval(SizeOf(meter))
    ensures admitted <= Capacity(SizeOf(meter)) + 1 + Intervals(SizeOf(meter), now - from)
  {
    WindowBound(Level(s, meter, now), from, now, base, admitted, SizeOf(meter));
  }
}
