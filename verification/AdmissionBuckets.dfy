/** The integer token buckets of pairing admission, and the rate they enforce. */
module AdmissionBuckets {
  import opened Common

  datatype Bucket = Bucket(tokens: nat, last: u64)

  /** The two sizes of bucket in use. */
  datatype Size = WholeProcess | PerSource

  function Capacity(size: Size): nat {
    if size == WholeProcess then 16 else 4
  }

  function Interval(size: Size): (r: nat)
    ensures r > 0
  {
    if size == WholeProcess then 1_000 else 15_000
  }

  /** The whole refill intervals in a duration. */
  function Intervals(size: Size, duration: nat): nat {
    duration / Interval(size)
  }

  function Full(size: Size, now: u64): Bucket {
    Bucket(Capacity(size), now)
  }

  function Refill(b: Bucket, now: u64, size: Size): Bucket {
    if now <= b.last then b
    else if b.tokens == Capacity(size) then b.(last := now)
    else
      var intervals := Intervals(size, now - b.last);
      if intervals == 0 then b
      else
        Bucket(Min(Capacity(size), b.tokens + Min(Capacity(size), intervals)),
               SaturatingAdd(b.last, intervals * Interval(size)))
  }

  /** Division by the interval, for either size. */
  lemma IntervalsExact(size: Size, duration: nat, k: nat)
    ensures var whole := Intervals(size, duration) * Interval(size); whole <= duration < whole + Interval(size)
    ensures Intervals(size, duration + k * Interval(size)) == Intervals(size, duration) + k
    ensures Intervals(size, duration) <= Intervals(size, duration + k)
  {
    if size == WholeProcess {
      assert (duration + k * 1_000) / 1_000 == duration / 1_000 + k;
    } else {
      assert (duration + k * 15_000) / 15_000 == duration / 15_000 + k;
    }
  }

  /** `admitted` handshakes since `base` have been paid for: by the first capacity, or by an interval each. */
  ghost predicate Paid(b: Bucket, base: u64, admitted: nat, size: Size) {
    b.tokens <= Capacity(size) && base <= b.last
      && b.tokens + admitted <= Capacity(size) + Intervals(size, b.last - base)
  }

  /** A refill takes over whole intervals only, so its saturating addition never saturates, and it leaves less than
      one interval untaken. */
  lemma RefillExact(b: Bucket, now: u64, size: Size)
    requires b.last <= now && b.tokens <= Capacity(size)
    ensures var r := Refill(b, now, size); var k := Intervals(size, now - b.last);
            && b.last + k * Interval(size) <= now <= U64_MAX
            && b.last <= r.last <= now && now - r.last < Interval(size) && r.tokens <= Capacity(size)
            && (b.tokens < Capacity(size) ==> r.last == b.last + k * Interval(size) && r.tokens <= b.tokens + k)
            && (b.tokens == Capacity(size) ==> r == Full(size, now))
  {
    IntervalsExact(size, now - b.last, 0);
    hide Intervals;
  }

  lemma RefillPaid(b: Bucket, now: u64, base: u64, admitted: nat, size: Size)
    requires b.last <= now && Paid(b, base, admitted, size)
    ensures Paid(Refill(b, now, size), base, admitted, size)
  {
    RefillExact(b, now, size);
    IntervalsExact(size, b.last - base, now - b.last);
    IntervalsExact(size, b.last - base, Intervals(size, now - b.last));
    hide Intervals, Refill;
  }

  /** A bucket dropped while full, or not made yet, is as good as a full one at the present time. */
  lemma FullPaid(b: Bucket, now: u64, base: u64, admitted: nat, size: Size)
    requires b.last <= now && Paid(b, base, admitted, size) && b.tokens == Capacity(size)
    ensures Paid(Full(size, now), base, admitted, size)
  {
    IntervalsExact(size, b.last - base, now - b.last);
  }

  /** What has been paid for by `now`, from the bucket's creation. */
  lemma PaidBound(b: Bucket, now: u64, base: u64, admitted: nat, size: Size)
    requires b.last <= now && Paid(b, base, admitted, size)
    ensures admitted <= Capacity(size) + Intervals(size, now - base)
  {
    IntervalsExact(size, b.last - base, now - b.last);
  }

  /** What has been paid for in a window of length `now - from`, when the books were opened on a refilled bucket. */
  lemma WindowBound(b: Bucket, from: u64, now: u64, base: u64, admitted: nat, size: Size)
    requires b.last <= now && Paid(b, base, admitted, size)
    requires base <= from <= now && from - base < Interval(size)
    ensures admitted <= Capacity(size) + 1 + Intervals(size, now - from)
  {
    PaidBound(b, now, base, admitted, size);
    IntervalsExact(size, now - base, Interval(size) - (from - base));
    IntervalsExact(size, now - from, 1);
    hide Intervals;
  }
}
