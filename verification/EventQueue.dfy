/** The bounded event queue: a sequence that drops its oldest element when full. */
module EventQueue {
  import opened Common

  const CAPACITY := 64

  /** `flagged` when an event was dropped to make room for this one. */
  datatype Queued = Queued(sequence: u64, payload: seq<u8>, flagged: bool)

  /** The queue and the next sequence number. */
  datatype Queue = Queue(events: seq<Queued>, next: u64)

  const EMPTY := Queue([], 1)

  /** 64-bit sequence numbers begin again at zero. */
  function Wrap(n: int): u64 {
    n % (U64_MAX + 1)
  }

  function Enqueued(q: Queue, payload: seq<u8>): Queue {
    var full := |q.events| == CAPACITY;
    Queue((if full then q.events[1..] else q.events) + [Queued(q.next, payload, full)], Wrap(q.next + 1))
  }

  function Polled(q: Queue): (Queue, Option<Queued>) {
    if |q.events| == 0 then (q, None) else (q.(events := q.events[1..]), Some(q.events[0]))
  }

  // ----- Histories -----

  datatype Command = Enqueue(payload: seq<u8>) | Poll

  /** An event that left the queue, with its place among all that arrived. */
  datatype Gone = Gone(place: nat, event: Queued)

  /** The queue, everything that arrived, and what was polled and dropped, each in order. */
  datatype History = History(queue: Queue, arrived: seq<Queued>, polled: seq<Gone>, dropped: seq<Gone>)

  const START := History(EMPTY, [], [], [])

  /** The place of the oldest queued event, or of the next to arrive. */
  function Front(h: History): int {
    |h.arrived| - |h.queue.events|
  }

  function Next(h: History, command: Command): History
    requires Front(h) >= 0
  {
    match command
    case Enqueue(payload) =>
      var queue := Enqueued(h.queue, payload);
      History(queue, h.arrived + [queue.events[|queue.events| - 1]], h.polled,
              if |h.queue.events| == CAPACITY then h.dropped + [Gone(Front(h), h.queue.events[0])] else h.dropped)
    case Poll =>
      var (queue, event) := Polled(h.queue);
      h.(queue := queue, polled := if event.Some? then h.polled + [Gone(Front(h), event.value)] else h.polled)
  }

  ghost predicate Rising(gone: seq<Gone>) {
    forall i, j :: 0 <= i < j < |gone| ==> gone[i].place < gone[j].place
  }

  ghost predicate Among(gone: seq<Gone>, place: nat) {
    exists i :: 0 <= i < |gone| && gone[i].place == place
  }

  /** Events that left are as they arrived, in order, and from before the queue. */
  ghost predicate Left(h: History, gone: seq<Gone>) {
    Rising(gone) && forall i :: 0 <= i < |gone| ==>
      gone[i].place < Front(h) && gone[i].event == h.arrived[gone[i].place]
  }

  /** Arrivals are numbered one after the other. */
  ghost predicate Numbered(h: History) {
    && h.queue.next == Wrap(|h.arrived| + 1)
    && forall k :: 0 <= k < |h.arrived| ==> h.arrived[k].sequence == Wrap(k + 1)
  }

  /** Each arrival is in exactly one place: polled, dropped, or queued in order behind all of these. */
  ghost predicate Placed(h: History) {
    && |h.queue.events| <= CAPACITY && Front(h) >= 0 && h.queue.events == h.arrived[Front(h)..]
    && Left(h, h.polled) && Left(h, h.dropped)
    && forall k :: 0 <= k < Front(h) ==> Among(h.polled, k) != Among(h.dropped, k)
  }

  /** An arrival is marked exactly when it pushed out the one a queue length before it. */
  ghost predicate Marked(h: History) {
    && (forall i :: 0 <= i < |h.dropped| ==> h.dropped[i].place + CAPACITY < |h.arrived|)
    && forall k :: 0 <= k < |h.arrived| ==> h.arrived[k].flagged == (k >= CAPACITY && Among(h.dropped, k - CAPACITY))
  }

  /** Some event after `place` that was polled or is queued tells that events were dropped before it. */
  ghost predicate Told(h: History, place: nat) {
    exists k :: place < k < |h.arrived| && h.arrived[k].flagged && !Among(h.dropped, k)
  }

  ghost predicate Accounts(h: History) {
    Numbered(h) && Placed(h) && Marked(h) && forall i :: 0 <= i < |h.dropped| ==> Told(h, h.dropped[i].place)
  }

  // ----- One command -----

  lemma AmongAppend(gone: seq<Gone>, g: Gone, place: nat)
    ensures Among(gone + [g], place) <==> Among(gone, place) || g.place == place
  {
    var all := gone + [g];
    assert all[|gone|] == g;
    if i :| 0 <= i < |gone| && gone[i].place == place {
      assert all[i] == gone[i];
    }
  }

  /** What was dropped lies before the queue. */
  lemma DroppedBefore(h: History, place: nat)
    requires Placed(h) && Among(h.dropped, place)
    ensures place < Front(h)
  {
  }

  lemma EnqueuePlaced(h: History, payload: seq<u8>)
    requires Placed(h)
    ensures Placed(Next(h, Enqueue(payload)))
  {
    hide Wrap;
    var after := Next(h, Enqueue(payload));
    var front := Front(h);
    assert forall i :: 0 <= i < |h.arrived| ==> after.arrived[i] == h.arrived[i];
    if |h.queue.events| == CAPACITY {
      assert h.queue.events[0] == h.arrived[front];
      forall k | 0 <= k < Front(after) ensures Among(after.polled, k) != Among(after.dropped, k) {
        AmongAppend(h.dropped, Gone(front, h.queue.events[0]), k);
        assert k == front ==> !Among(h.polled, k);
      }
    }
    hide Among;
  }

  lemma PollPlaced(h: History)
    requires Placed(h)
    ensures Placed(Next(h, Poll))
  {
    var after := Next(h, Poll);
    var front := Front(h);
    if |h.queue.events| > 0 {
      assert h.queue.events[0] == h.arrived[front];
      forall k | 0 <= k < Front(after) ensures Among(after.polled, k) != Among(after.dropped, k) {
        AmongAppend(h.polled, Gone(front, h.queue.events[0]), k);
        assert k == front ==> !Among(h.dropped, k);
      }
    }
    hide Among;
  }

  lemma EnqueueMarked(h: History, payload: seq<u8>)
    requires Placed(h) && Marked(h)
    ensures Marked(Next(h, Enqueue(payload)))
  {
    var after := Next(h, Enqueue(payload));
    var n, full := |h.arrived|, |h.queue.events| == CAPACITY;
    forall k | 0 <= k <= n
      ensures after.arrived[k].flagged == (k >= CAPACITY && Among(after.dropped, k - CAPACITY))
    {
      if full && k >= CAPACITY {
        AmongAppend(h.dropped, Gone(Front(h), h.queue.events[0]), k - CAPACITY);
      }
      assert k < n ==> after.arrived[k] == h.arrived[k];
    }
  }

  lemma EnqueueTold(h: History, payload: seq<u8>, place: nat)
    requires Accounts(h) && (Told(h, place) || |h.queue.events| == CAPACITY) && place < |h.arrived|
    ensures Told(Next(h, Enqueue(payload)), place)
  {
    hide Numbered, Marked;
    var after := Next(h, Enqueue(payload));
    var n := |h.arrived|;
    EnqueuePlaced(h, payload);
    if |h.queue.events| == CAPACITY {
      assert after.arrived[n].flagged;
      if Among(after.dropped, n) {
        DroppedBefore(after, n);
      }
    } else {
      var k :| place < k < n && h.arrived[k].flagged && !Among(h.dropped, k);
      assert after.arrived[k] == h.arrived[k];
    }
  }

  lemma EnqueueAccounts(h: History, payload: seq<u8>)
    requires Accounts(h)
    ensures Accounts(Next(h, Enqueue(payload)))
  {
    EnqueueNumbered(h, payload);
    hide Told, Marked, Left, Among, Numbered, Wrap;
    EnqueuePlaced(h, payload);
    EnqueueMarked(h, payload);
    var after := Next(h, Enqueue(payload));
    forall i | 0 <= i < |after.dropped| ensures Told(after, after.dropped[i].place) {
      EnqueueKnown(h, payload, i);
      EnqueueTold(h, payload, after.dropped[i].place);
    }
  }

  lemma EnqueueNumbered(h: History, payload: seq<u8>)
    requires Numbered(h) && Front(h) >= 0
    ensures Numbered(Next(h, Enqueue(payload)))
  {
    var after := Next(h, Enqueue(payload));
    assert forall k :: 0 <= k < |h.arrived| ==> after.arrived[k] == h.arrived[k];
    assert after.arrived[|h.arrived|].sequence == h.queue.next;
    assert Wrap(Wrap(|h.arrived| + 1) + 1) == Wrap(|h.arrived| + 2);
  }

  /** What is dropped afterwards was told of, or pushed out by this arrival. */
  lemma EnqueueKnown(h: History, payload: seq<u8>, i: nat)
    requires Accounts(h) && i < |Next(h, Enqueue(payload)).dropped|
    ensures var place := Next(h, Enqueue(payload)).dropped[i].place;
            (Told(h, place) || |h.queue.events| == CAPACITY) && place < |h.arrived|
  {
    hide Told, Marked, Numbered, Among;
    if i < |h.dropped| {
      assert Told(h, h.dropped[i].place);
    }
  }

  lemma PollAccounts(h: History)
    requires Accounts(h)
    ensures Accounts(Next(h, Poll))
  {
    PollPlaced(h);
    var after := Next(h, Poll);
    assert after.arrived == h.arrived && after.dropped == h.dropped && after.queue.next == h.queue.next;
    forall i | 0 <= i < |after.dropped| ensures Told(after, after.dropped[i].place) {
      assert Told(h, h.dropped[i].place);
    }
    hide Placed, Among;
  }

  // ----- Runs -----

  function Payloads(commands: seq<Command>): seq<seq<u8>> {
    if |commands| == 0 then []
    else
      var front, last := Payloads(commands[..|commands| - 1]), commands[|commands| - 1];
      if last.Enqueue? then front + [last.payload] else front
  }

  function Execute(commands: seq<Command>): (h: History)
    ensures Front(h) >= 0
  {
    if |commands| == 0 then START
    else
      var before := Execute(commands[..|commands| - 1]);
      Next(before, commands[|commands| - 1])
  }

  /** The payloads that arrived. */
  function PayloadsOf(arrived: seq<Queued>): seq<seq<u8>> {
    if |arrived| == 0 then [] else PayloadsOf(arrived[..|arrived| - 1]) + [arrived[|arrived| - 1].payload]
  }

  /** Over every run from the empty queue: what arrived is what was enqueued, numbered one after the other; each
      arrival is polled, dropped or queued, and only one of these, unchanged and in order; it is marked exactly when
      it pushed out an older one; and every dropped event is followed by a marked one that was not. */
  lemma {:induction false} NothingLostSilently(commands: seq<Command>)
    ensures Accounts(Execute(commands)) && PayloadsOf(Execute(commands).arrived) == Payloads(commands)
  {
    if |commands| > 0 {
      var front, last := commands[..|commands| - 1], commands[|commands| - 1];
      NothingLostSilently(front);
      hide Accounts;
      var h := Execute(front);
      match last {
        case Enqueue(payload) =>
          EnqueueAccounts(h, payload);
          var after := Next(h, last);
          assert after.arrived[..|h.arrived|] == h.arrived;
        case Poll => PollAccounts(h);
      }
    }
  }
}
