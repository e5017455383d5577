/** Pairing frames cut out of a byte stream that arrives in reads of any size. */
module PairingReassembly {
  import opened Common
  import opened BigEndian
  import opened PairingWire

  const READ_SIZE := 2_048
  const MAX_INBOUND_FRAMES := 16
  const MAX_INBOUND_BYTES := 65_536

  /** Why reading stopped: the framing failed, or the attempt ended with the last frame. */
  datatype Stop = Failed(error: PairingError) | Ended

  datatype Reader = Reader(buffer: seq<u8>, delivered: seq<seq<u8>>, deliveredBytes: nat, nextIn: u32,
                           stopped: Option<Stop>)

  /** Whether the attempt has ended once it was given these frames, with timers left aside. */
  type Attempt = seq<seq<u8>> -> bool

  const START := Reader([], [], 0, 1, None)

  /** The size of the frame at the start of a buffer whose header passed. */
  function FrameSize(buffer: seq<u8>): (size: nat)
    requires |buffer| >= HEADER_SIZE
    ensures size >= HEADER_SIZE
  {
    HEADER_SIZE + ReadU32(buffer[16..20])
  }

  /** What is wrong with the frame that starts the buffer, as far as its header tells. */
  function FrameError(r: Reader): (error: Option<PairingError>)
    requires |r.buffer| >= HEADER_SIZE
    ensures error.None? ==> r.nextIn < U32_MAX
  {
    var error := HeaderError(r.buffer[..HEADER_SIZE]);
    if error.Some? then error
    else if ReadU32(r.buffer[12..16]) != r.nextIn || r.nextIn == U32_MAX then Some(SequenceViolation)
    else if |r.delivered| == MAX_INBOUND_FRAMES
      || FrameSize(r.buffer) > MAX_INBOUND_BYTES - r.deliveredBytes then Some(LimitExceeded)
    else None
  }

  /** The frame that starts the buffer is handed over. */
  function Delivered(r: Reader, attempt: Attempt): Reader
    requires |r.buffer| >= HEADER_SIZE && |r.buffer| >= FrameSize(r.buffer) && r.nextIn < U32_MAX
  {
    var size := FrameSize(r.buffer);
    var delivered := r.delivered + [r.buffer[..size]];
    Reader(r.buffer[size..], delivered, r.deliveredBytes + size, r.nextIn + 1,
           if attempt(delivered) then Some(Ended) else None)
  }

  /** `ProcessFrames`. */
  function Process(r: Reader, attempt: Attempt): Reader
    decreases |r.buffer|
  {
    if r.stopped.Some? || |r.buffer| < HEADER_SIZE then r
    else
      var error := FrameError(r);
      if error.Some? then r.(stopped := Some(Failed(error.value)))
      else if |r.buffer| < FrameSize(r.buffer) then r
      else Process(Delivered(r, attempt), attempt)
  }

  function Appended(r: Reader, bytes: seq<u8>): Reader {
    r.(buffer := r.buffer + bytes)
  }

  /** One completed read, of one byte at least. */
  function Read(r: Reader, chunk: seq<u8>, attempt: Attempt): Reader {
    if r.stopped.Some? then r
    else if |chunk| == 0 then r.(stopped := Some(Failed(InternalFailure)))
    else if |r.buffer| + |chunk| > 2 * MAX_FRAME_SIZE then r.(stopped := Some(Failed(LimitExceeded)))
    else Process(Appended(r, chunk), attempt)
  }

  function ReadAll(r: Reader, chunks: seq<seq<u8>>, attempt: Attempt): Reader
    decreases |chunks|
  {
    if |chunks| == 0 then r else ReadAll(Read(r, chunks[0], attempt), chunks[1..], attempt)
  }

  function Stream(chunks: seq<seq<u8>>): seq<u8> {
    if |chunks| == 0 then [] else chunks[0] + Stream(chunks[1..])
  }

  // ----- What is left over -----

  /** Nothing more can be done with the buffer: it holds less than a frame. */
  predicate Waiting(r: Reader) {
    r.stopped.None? &&
    (|r.buffer| < HEADER_SIZE || (FrameError(r).None? && |r.buffer| < FrameSize(r.buffer)))
  }

  lemma {:induction false} ProcessWaits(r: Reader, attempt: Attempt)
    ensures Process(r, attempt).stopped.None? ==> Waiting(Process(r, attempt))
    decreases |r.buffer|
  {
    hide HeaderError, ReadU32;
    if r.stopped.None? && |r.buffer| >= HEADER_SIZE && FrameError(r).None? && |r.buffer| >= FrameSize(r.buffer) {
      ProcessWaits(Delivered(r, attempt), attempt);
    }
  }

  /** A maximal read always fits beside what is left over, so the buffer limit is never the reason to stop. */
  lemma ReadFits(r: Reader, chunk: seq<u8>)
    requires Waiting(r) && |chunk| <= READ_SIZE
    ensures |r.buffer| + |chunk| <= 2 * MAX_FRAME_SIZE
  {
    if |r.buffer| >= HEADER_SIZE {
      assert r.buffer[..HEADER_SIZE][16..20] == r.buffer[16..20];
    }
    hide ReadU32, ReadU16;
  }

  // ----- Fragmentation -----

  /** Bytes behind a frame's header do not change what the header says. */
  lemma HeaderStable(r: Reader, more: seq<u8>)
    requires |r.buffer| >= HEADER_SIZE
    ensures FrameError(Appended(r, more)) == FrameError(r) && FrameSize(r.buffer + more) == FrameSize(r.buffer)
  {
    var a, b := r.buffer, r.buffer + more;
    assert b[..HEADER_SIZE] == a[..HEADER_SIZE] && b[12..16] == a[12..16] && b[16..20] == a[16..20];
    hide HeaderError, ReadU32;
  }

  /** Processing in two goes is processing in one; once stopped, further bytes only lengthen the buffer. */
  lemma {:induction false} ProcessAppended(r: Reader, more: seq<u8>, attempt: Attempt)
    ensures var first := Process(r, attempt);
            Process(Appended(r, more), attempt) ==
              if first.stopped.Some? then Appended(first, more) else Process(Appended(first, more), attempt)
    decreases |r.buffer|
  {
    hide HeaderError, ReadU32, FrameError, FrameSize;
    if r.stopped.None? && |r.buffer| >= HEADER_SIZE {
      HeaderStable(r, more);
      if FrameError(r).None? && |r.buffer| >= FrameSize(r.buffer) {
        DeliverAppended(r, more, attempt);
        ProcessAppended(Delivered(r, attempt), more, attempt);
      }
    }
  }

  lemma DeliverAppended(r: Reader, more: seq<u8>, attempt: Attempt)
    requires |r.buffer| >= HEADER_SIZE && FrameError(r).None? && |r.buffer| >= FrameSize(r.buffer)
    ensures FrameSize(r.buffer + more) == FrameSize(r.buffer)
    ensures Delivered(Appended(r, more), attempt) == Appended(Delivered(r, attempt), more)
  {
    HeaderStable(r, more);
    hide HeaderError, ReadU32;
    var size := FrameSize(r.buffer);
    assert (r.buffer + more)[..size] == r.buffer[..size] && (r.buffer + more)[size..] == r.buffer[size..] + more;
  }

  /** Equal in everything but the bytes left over, which may differ once reading has stopped. */
  ghost predicate SameReading(a: Reader, b: Reader) {
    a.(buffer := []) == b.(buffer := []) && (a.stopped.None? ==> a.buffer == b.buffer)
  }

  ghost predicate Reads(chunks: seq<seq<u8>>) {
    forall i :: 0 <= i < |chunks| ==> 0 < |chunks[i]| <= READ_SIZE
  }

  /** One read, seen from the bytes that follow it. */
  lemma ReadStep(r: Reader, chunk: seq<u8>, more: seq<u8>, attempt: Attempt)
    requires r.stopped.None? && Waiting(r) && 0 < |chunk| <= READ_SIZE
    ensures var next := Read(r, chunk, attempt);
            && (next.stopped.None? ==> Waiting(next))
            && Process(Appended(r, chunk + more), attempt) ==
                 if next.stopped.Some? then Appended(next, more) else Process(Appended(next, more), attempt)
  {
    hide Process, Waiting;
    ReadFits(r, chunk);
    ProcessWaits(Appended(r, chunk), attempt);
    ProcessAppended(Appended(r, chunk), more, attempt);
    assert r.buffer + chunk + more == r.buffer + (chunk + more);
  }

  /** Reading in pieces comes to the same as being given the whole stream at once. */
  lemma {:induction false} ReadsAsWhole(r: Reader, chunks: seq<seq<u8>>, attempt: Attempt)
    requires Reads(chunks) && (r.stopped.None? ==> Waiting(r))
    ensures SameReading(ReadAll(r, chunks, attempt), Process(Appended(r, Stream(chunks)), attempt))
    decreases |chunks|
  {
    hide Process, Waiting, Read;
    if r.stopped.Some? {
      StoppedStays(r, Stream(chunks), attempt);
      StoppedReads(r, chunks, attempt);
    } else if |chunks| == 0 {
      assert r.buffer + [] == r.buffer;
      WaitingStays(r, attempt);
    } else {
      var chunk, rest := chunks[0], chunks[1..];
      var next := Read(r, chunk, attempt);
      ReadStep(r, chunk, Stream(rest), attempt);
      StoppedStays(next, Stream(rest), attempt);
      ReadsAsWhole(next, rest, attempt);
    }
  }

  lemma WaitingStays(r: Reader, attempt: Attempt)
    requires r.stopped.None? ==> Waiting(r)
    ensures Process(r, attempt) == r
  {
  }

  lemma StoppedStays(r: Reader, bytes: seq<u8>, attempt: Attempt)
    ensures r.stopped.Some? ==> Process(Appended(r, bytes), attempt) == Appended(r, bytes)
  {
  }

  /** Fragmentation independence: the frames handed over and any failure depend only on the stream, not on how reads
      split it; while reading goes on, so do the bytes left over. */
  lemma FragmentationIndependence(a: seq<seq<u8>>, b: seq<seq<u8>>, attempt: Attempt)
    requires Reads(a) && Reads(b) && Stream(a) == Stream(b)
    ensures SameReading(ReadAll(START, a, attempt), ReadAll(START, b, attempt))
  {
    ReadsAsWhole(START, a, attempt);
    ReadsAsWhole(START, b, attempt);
  }

  /** The frames handed over, one after the other, and the bytes left over are the part of the stream read so far. */
  lemma {:induction false} ProcessConserves(r: Reader, attempt: Attempt)
    ensures Stream(Process(r, attempt).delivered) + Process(r, attempt).buffer == Stream(r.delivered) + r.buffer
    decreases |r.buffer|
  {
    hide HeaderError, ReadU32, FrameError, FrameSize;
    if r.stopped.None? && |r.buffer| >= HEADER_SIZE && FrameError(r).None? && |r.buffer| >= FrameSize(r.buffer) {
      var frame := r.buffer[..FrameSize(r.buffer)];
      ProcessConserves(Delivered(r, attempt), attempt);
      StreamAppend(r.delivered, frame);
      assert r.buffer == frame + r.buffer[FrameSize(r.buffer)..];
    }
  }

  lemma {:induction false} StreamAppend(chunks: seq<seq<u8>>, chunk: seq<u8>)
    ensures Stream(chunks + [chunk]) == Stream(chunks) + chunk
  {
    if |chunks| == 0 {
      assert [chunk][1..] == [];
    } else {
      assert (chunks + [chunk])[1..] == chunks[1..] + [chunk];
      StreamAppend(chunks[1..], chunk);
    }
  }

  /** Whatever is read is handed over or left over, in order; nothing is dropped before reading stops. */
  lemma {:induction false} ReadConserves(r: Reader, chunks: seq<seq<u8>>, attempt: Attempt) returns (read: nat)
    requires Reads(chunks) && (r.stopped.None? ==> Waiting(r))
    ensures read <= |Stream(chunks)|
    ensures var end := ReadAll(r, chunks, attempt);
            && Stream(end.delivered) + end.buffer == Stream(r.delivered) + r.buffer + Stream(chunks)[..read]
            && (end.stopped.None? ==> read == |Stream(chunks)|)
    decreases |chunks|
  {
    if |chunks| == 0 || r.stopped.Some? {
      read := 0;
      StoppedReads(r, chunks, attempt);
      assert Stream(r.delivered) + r.buffer + [] == Stream(r.delivered) + r.buffer;
    } else {
      var chunk, rest := chunks[0], chunks[1..];
      var next := Read(r, chunk, attempt);
      ReadStep(r, chunk, [], attempt);
      ReadFits(r, chunk);
      ProcessConserves(Appended(r, chunk), attempt);
      hide Process, Waiting, ReadAll;
      var more := ReadConserves(next, rest, attempt);
      read := |chunk| + more;
      ReadAllStep(r, chunks, attempt);
      assert Stream(chunks)[..read] == chunk + Stream(rest)[..more];
      assert Stream(r.delivered) + (r.buffer + chunk) + Stream(rest)[..more] ==
             Stream(r.delivered) + r.buffer + (chunk + Stream(rest)[..more]);
    }
  }

  lemma ReadAllStep(r: Reader, chunks: seq<seq<u8>>, attempt: Attempt)
    requires |chunks| > 0
    ensures ReadAll(r, chunks, attempt) == ReadAll(Read(r, chunks[0], attempt), chunks[1..], attempt)
    ensures Stream(chunks) == chunks[0] + Stream(chunks[1..])
  {
  }

  lemma {:induction false} StoppedReads(r: Reader, chunks: seq<seq<u8>>, attempt: Attempt)
    ensures r.stopped.Some? || |chunks| == 0 ==> ReadAll(r, chunks, attempt) == r
    decreases |chunks|
  {
    if |chunks| > 0 && r.stopped.Some? {
      StoppedReads(r, chunks[1..], attempt);
    }
  }

  /** Once reading has stopped the bytes left over do depend on the split: the rest of the last read stays. */
  lemma LeftoverDependsOnSplit()
    ensures var bad: seq<u8> := seq(HEADER_SIZE, i => 0); var one, two := [bad + [7]], [bad, [7]];
            var attempt: Attempt := frames => false;
            && Reads(one) && Reads(two) && Stream(one) == Stream(two)
            && ReadAll(START, one, attempt).stopped == Some(Failed(Malformed))
            && ReadAll(START, one, attempt).buffer != ReadAll(START, two, attempt).buffer
  {
    var bad: seq<u8> := seq(HEADER_SIZE, i => 0);
    var one, two := [bad + [7]], [bad, [7]];
    var attempt: Attempt := frames => false;
    assert two[1..] == [[7]] && one[1..] == [];
    assert bad + ([7] + []) == bad + [7] + [];
    assert [] + bad == bad && [] + (bad + [7]) == bad + [7];
    assert bad[..4][0] == 0 && (bad + [7])[..HEADER_SIZE] == bad && bad[..HEADER_SIZE] == bad;
    assert MAGIC[0] == 0x58;
    assert HeaderError(bad) == Some(Malformed);
    var a, b := Appended(START, bad + [7]), Appended(START, bad);
    assert a.buffer == bad + [7] && b.buffer == bad;
    assert FrameError(a) == Some(Malformed) && FrameError(b) == Some(Malformed);
    assert Read(START, bad + [7], attempt) == a.(stopped := Some(Failed(Malformed)));
    assert Read(START, bad, attempt) == b.(stopped := Some(Failed(Malformed)));
    StoppedReads(Read(START, bad, attempt), [[7]], attempt);
  }

  // ----- When the bytes left over are the same for every cutting -----

  ghost predicate IsCutting(chunks: seq<seq<u8>>, stream: seq<u8>) {
    Reads(chunks) && Stream(chunks) == stream
  }

  ghost predicate SameLeftover(stream: seq<u8>, attempt: Attempt) {
    forall a: seq<seq<u8>>, b: seq<seq<u8>> :: IsCutting(a, stream) && IsCutting(b, stream) ==>
      ReadAll(START, a, attempt).buffer == ReadAll(START, b, attempt).buffer
  }

  predicate StopsWithin(r: Reader, bytes: seq<u8>, k: nat, attempt: Attempt)
    requires k <= |bytes|
  {
    Process(Appended(r, bytes[..k]), attempt).stopped.Some?
  }

  /** A part of the stream that is not the whole of it already makes the reader stop. */
  ghost predicate StopsEarly(stream: seq<u8>, attempt: Attempt) {
    exists k :: 0 <= k < |stream| && StopsWithin(START, stream, k, attempt)
  }

  /** A read that does not stop is behind those after it. */
  lemma BehindRead(r: Reader, chunk: seq<u8>, more: seq<u8>, k: nat, attempt: Attempt)
    requires Waiting(r) && 0 < |chunk| <= READ_SIZE && k <= |more| && Read(r, chunk, attempt).stopped.None?
    ensures StopsWithin(Read(r, chunk, attempt), more, k, attempt) == StopsWithin(r, chunk + more, |chunk| + k, attempt)
  {
    assert r.stopped.None?;
    hide Process, Waiting, Read;
    ReadStep(r, chunk, more[..k], attempt);
    assert (chunk + more)[..|chunk| + k] == chunk + more[..k];
  }

  /** If nothing stops before the last byte, reading in pieces ends exactly as reading at once. */
  lemma {:induction false} ReadsExactly(r: Reader, chunks: seq<seq<u8>>, attempt: Attempt)
    requires Reads(chunks) && Waiting(r)
    requires forall k :: 0 <= k < |Stream(chunks)| ==> !StopsWithin(r, Stream(chunks), k, attempt)
    ensures ReadAll(r, chunks, attempt) == Process(Appended(r, Stream(chunks)), attempt)
    decreases |chunks|
  {
    assert r.stopped.None?;
    hide Process, Waiting, Read, StopsWithin;
    if |chunks| == 0 {
      assert r.buffer + [] == r.buffer;
      WaitingStays(r, attempt);
    } else {
      var chunk, rest := chunks[0], chunks[1..];
      var next, more := Read(r, chunk, attempt), Stream(rest);
      ReadStep(r, chunk, more, attempt);
      if |rest| == 0 {
        StoppedReads(next, rest, attempt);
        assert next.buffer + [] == next.buffer;
        NothingMore(next, attempt);
      } else {
        assert |more| > 0 && Stream(chunks) == chunk + more;
        assert !StopsWithin(r, chunk + more, |chunk|, attempt);
        StopsAfterRead(r, chunk, more, attempt);
        forall k | 0 <= k < |more| ensures !StopsWithin(next, more, k, attempt) {
          BehindRead(r, chunk, more, k, attempt);
        }
        ReadsExactly(next, rest, attempt);
      }
    }
  }

  lemma NothingMore(r: Reader, attempt: Attempt)
    requires r.stopped.None? ==> Waiting(r)
    ensures Appended(r, []) == r && Process(r, attempt) == r
  {
    assert r.buffer + [] == r.buffer;
  }

  lemma StopsAfterRead(r: Reader, chunk: seq<u8>, more: seq<u8>, attempt: Attempt)
    requires Waiting(r) && 0 < |chunk| <= READ_SIZE && !StopsWithin(r, chunk + more, |chunk|, attempt)
    ensures Read(r, chunk, attempt).stopped.None?
  {
    hide Process;
    ReadFits(r, chunk);
    assert (chunk + more)[..|chunk|] == chunk;
  }

  /** The stream one byte at a time. */
  function Singles(stream: seq<u8>): (chunks: seq<seq<u8>>) {
    if |stream| == 0 then [] else Singles(stream[..|stream| - 1]) + [stream[|stream| - 1..]]
  }

  lemma {:induction false} SinglesCut(stream: seq<u8>)
    ensures IsCutting(Singles(stream), stream)
  {
    if |stream| > 0 {
      var front, last := stream[..|stream| - 1], stream[|stream| - 1..];
      SinglesCut(front);
      StreamAppend(Singles(front), last);
      assert stream == front + last;
    }
  }

  lemma {:induction false} ReadAllSplit(r: Reader, a: seq<seq<u8>>, b: seq<seq<u8>>, attempt: Attempt)
    ensures ReadAll(r, a + b, attempt) == ReadAll(ReadAll(r, a, attempt), b, attempt)
    decreases |a|
  {
    hide Read;
    if |a| == 0 {
      assert a + b == b;
    } else {
      assert (a + b)[1..] == a[1..] + b;
      ReadAllSplit(Read(r, a[0], attempt), a[1..], b, attempt);
    }
  }

  /** The cutting that reads `ahead` bytes with the one at which the reader stops. */
  function StopCut(stream: seq<u8>, k: nat, ahead: nat): seq<seq<u8>>
    requires 0 < k && k + ahead <= |stream|
  {
    Singles(stream[..k - 1]) + [stream[k - 1..k + ahead]] + Singles(stream[k + ahead..])
  }

  lemma StopCutCuts(stream: seq<u8>, k: nat, ahead: nat)
    requires 0 < k && k + ahead <= |stream| && ahead < READ_SIZE
    ensures IsCutting(StopCut(stream, k, ahead), stream)
  {
    hide Stream, Singles;
    var front, chunk, rest := stream[..k - 1], stream[k - 1..k + ahead], stream[k + ahead..];
    SinglesCut(front);
    SinglesCut(rest);
    StreamAppend(Singles(front), chunk);
    StreamSplit(Singles(front) + [chunk], Singles(rest));
    assert stream == front + chunk + rest;
  }

  lemma {:induction false} StreamSplit(a: seq<seq<u8>>, b: seq<seq<u8>>)
    ensures Stream(a + b) == Stream(a) + Stream(b)
  {
    if |a| == 0 {
      assert a + b == b;
    } else {
      assert (a + b)[1..] == a[1..] + b;
      StreamSplit(a[1..], b);
    }
  }

  lemma StopCutReads(stream: seq<u8>, k: nat, ahead: nat, attempt: Attempt)
    requires 0 < k && k + ahead <= |stream| && ahead < READ_SIZE && StopsWithin(START, stream, k, attempt)
    requires forall i :: 0 <= i < k ==> !StopsWithin(START, stream, i, attempt)
    ensures ReadAll(START, StopCut(stream, k, ahead), attempt) == Process(Appended(START, stream[..k + ahead]), attempt)
  {
    hide Process, Waiting, Read, ReadAll, Stream, Singles;
    var front, chunk, rest := stream[..k - 1], stream[k - 1..k + ahead], stream[k + ahead..];
    SinglesCut(front);
    ReadAllSplit(START, Singles(front), [chunk], attempt);
    ReadAllSplit(START, Singles(front) + [chunk], Singles(rest), attempt);
    forall i | 0 <= i < k - 1 ensures !StopsWithin(START, front, i, attempt) {
      assert !StopsWithin(START, stream, i, attempt);
      assert front[..i] == stream[..i];
    }
    WaitingAtStart();
    ReadsExactly(START, Singles(front), attempt);
    ReadLast(stream, k, ahead, attempt);
  }

  lemma WaitingAtStart()
    ensures Waiting(START)
  {
  }

  lemma StopsAt(stream: seq<u8>, k: nat, ahead: nat, attempt: Attempt)
    requires k + ahead <= |stream| && StopsWithin(START, stream, k, attempt)
    ensures Process(Appended(START, stream[..k + ahead]), attempt) ==
            Appended(Process(Appended(START, stream[..k]), attempt), stream[k..k + ahead])
  {
    hide Process;
    ProcessAppended(Appended(START, stream[..k]), stream[k..k + ahead], attempt);
    assert [] + stream[..k] + stream[k..k + ahead] == [] + stream[..k + ahead];
  }

  /** The read that stops, and those that are no longer made. */
  lemma ReadLast(stream: seq<u8>, k: nat, ahead: nat, attempt: Attempt)
    requires 0 < k && k + ahead <= |stream| && ahead < READ_SIZE
    requires StopsWithin(START, stream, k, attempt) && !StopsWithin(START, stream, k - 1, attempt)
    ensures var before := Process(Appended(START, stream[..k - 1]), attempt);
            var end := Process(Appended(START, stream[..k + ahead]), attempt);
            ReadAll(ReadAll(before, [stream[k - 1..k + ahead]], attempt), Singles(stream[k + ahead..]), attempt) == end
  {
    hide Process, Waiting, Singles;
    var before, chunk := Process(Appended(START, stream[..k - 1]), attempt), stream[k - 1..k + ahead];
    ProcessWaits(Appended(START, stream[..k - 1]), attempt);
    ReadFits(before, chunk);
    ProcessAppended(Appended(START, stream[..k - 1]), chunk, attempt);
    assert [] + stream[..k - 1] + chunk == [] + stream[..k + ahead];
    var after := Read(before, chunk, attempt);
    var only: seq<seq<u8>> := [chunk];
    assert only[1..] == [];
    StopsAt(stream, k, ahead, attempt);
    StoppedReads(after, Singles(stream[k + ahead..]), attempt);
  }

  lemma {:induction false} FirstStop(stream: seq<u8>, k: nat, attempt: Attempt) returns (first: nat)
    requires k <= |stream| && StopsWithin(START, stream, k, attempt)
    ensures 0 < first <= k && StopsWithin(START, stream, first, attempt)
    ensures forall i :: 0 <= i < first ==> !StopsWithin(START, stream, i, attempt)
  {
    if i :| 0 <= i < k && StopsWithin(START, stream, i, attempt) {
      first := FirstStop(stream, i, attempt);
    } else {
      first := k;
      assert stream[..0] == [];
    }
  }

  /** The bytes left over are the same for every cutting of a stream if and only if no part of the stream short of the
      whole makes the reader stop. */
  lemma LeftoverExactly(stream: seq<u8>, attempt: Attempt)
    ensures SameLeftover(stream, attempt) <==> !StopsEarly(stream, attempt)
  {
    hide Process, ReadAll, StopCut;
    if k :| 0 <= k < |stream| && StopsWithin(START, stream, k, attempt) {
      var first := FirstStop(stream, k, attempt);
      StopCutCuts(stream, first, 0);
      StopCutCuts(stream, first, 1);
      StopCutReads(stream, first, 0, attempt);
      StopCutReads(stream, first, 1, attempt);
      StopsAt(stream, first, 1, attempt);
      var a, b := StopCut(stream, first, 0), StopCut(stream, first, 1);
      assert |ReadAll(START, a, attempt).buffer| + 1 == |ReadAll(START, b, attempt).buffer|;
      assert IsCutting(a, stream) && IsCutting(b, stream);
    } else {
      forall a: seq<seq<u8>>, b: seq<seq<u8>> | IsCutting(a, stream) && IsCutting(b, stream)
        ensures ReadAll(START, a, attempt).buffer == ReadAll(START, b, attempt).buffer
      {
        ReadsExactly(START, a, attempt);
        ReadsExactly(START, b, attempt);
      }
    }
  }

  // ----- The socket's reading side as an object -----

  class FrameReader {
    const attempt: Attempt
    var inbound: seq<u8>
    var frames: seq<seq<u8>>
    var frameBytes: nat
    var nextIn: u32
    var stopped: Option<Stop>

    ghost function View(): Reader
      reads this
    {
      Reader(inbound, frames, frameBytes, nextIn, stopped)
    }

    constructor (attempt: Attempt)
      ensures View() == START && this.attempt == attempt
    {
      this.attempt := attempt;
      inbound, frames, frameBytes, nextIn, stopped := [], [], 0, 1, None;
    }

    /** The handler of a completed read. */
    method OnRead(chunk: seq<u8>)
      modifies this
      ensures View() == Read(old(View()), chunk, attempt)
    {
      if stopped.Some? {
        return;
      }
      if |chunk| == 0 {
        stopped := Some(Failed(InternalFailure));
        return;
      }
      if |inbound| + |chunk| > 2 * MAX_FRAME_SIZE {
        stopped := Some(Failed(LimitExceeded));
        return;
      }
      inbound := inbound + chunk;
      ProcessFrames();
    }

    method ProcessFrames()
      modifies this
      ensures View() == Process(old(View()), attempt)
    {
      hide HeaderError, ReadU32;
      ghost var result := Process(View(), attempt);
      while stopped.None? && |inbound| >= HEADER_SIZE
        invariant result == Process(View(), attempt)
        decreases |inbound|
      {
        var headerError := HeaderError(inbound[..HEADER_SIZE]);
        if headerError.Some? {
          stopped := Some(Failed(headerError.value));
          return;
        }
        var size := FrameSize(inbound);
        if ReadU32(inbound[12..16]) != nextIn || nextIn == U32_MAX {
          stopped := Some(Failed(SequenceViolation));
          return;
        }
        if |frames| == MAX_INBOUND_FRAMES || size > MAX_INBOUND_BYTES - frameBytes {
          stopped := Some(Failed(LimitExceeded));
          return;
        }
        if |inbound| < size {
          return;
        }
        frames := frames + [inbound[..size]];
        inbound := inbound[size..];
        frameBytes := frameBytes + size;
        nextIn := nextIn + 1;
        if attempt(frames) {
          stopped := Some(Ended);
        }
      }
    }
  }
}
