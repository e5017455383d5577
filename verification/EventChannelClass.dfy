/** The event channel as an object: a ring of fixed size and the callback flags, changed in
    the lock sections of its operations. */
module EventChannelClass {
  import opened Common
  import opened EventQueue
  import Flow = EventChannel

  /** The slot of the `i`-th oldest event. */
  function Slot(head: nat, i: nat): (k: nat)
    ensures k < CAPACITY
  {
    (head + i) % CAPACITY
  }

  /** The events in a ring, oldest first. */
  function Contents(slots: seq<Queued>, head: nat, size: nat): (r: seq<Queued>)
    requires |slots| == CAPACITY && head < CAPACITY && size <= CAPACITY
    ensures |r| == size
  {
    seq(size, i requires 0 <= i < size => slots[Slot(head, i)])
  }

  lemma DropFirst(slots: seq<Queued>, head: nat, size: nat)
    requires |slots| == CAPACITY && head < CAPACITY && 0 < size <= CAPACITY
    ensures Contents(slots, (head + 1) % CAPACITY, size - 1) == Contents(slots, head, size)[1..]
    ensures Contents(slots, head, size)[0] == slots[head]
  {
    var rest, all := Contents(slots, (head + 1) % CAPACITY, size - 1), Contents(slots, head, size);
    forall i | 0 <= i < size - 1 ensures rest[i] == all[i + 1] {
      assert Slot((head + 1) % CAPACITY, i) == Slot(head, i + 1);
    }
  }

  lemma PutLast(slots: seq<Queued>, head: nat, size: nat, event: Queued)
    requires |slots| == CAPACITY && head < CAPACITY && size < CAPACITY
    ensures Contents(slots[(head + size) % CAPACITY := event], head, size + 1) == Contents(slots, head, size) + [event]
  {
    assert forall i :: 0 <= i < size ==> Slot(head, i) != Slot(head, size);
  }

  class Channel {
    const ring: array<Queued>
    var head: nat
    var size: nat
    var next: u64
    var callback: Option<nat>
    var registrations: nat
    var registrationOpen: bool
    var eventsOpen: bool
    var active: Option<nat>
    var pending: bool

    predicate Valid()
      reads this
    {
      ring.Length == CAPACITY && head < CAPACITY && size <= CAPACITY
    }

    ghost function View(): Queue
      requires Valid()
      reads this, ring
    {
      Queue(Contents(ring[..], head, size), next)
    }

    ghost function Flags(): Flow.Flags
      reads this
    {
      Flow.Flags(callback, registrations, registrationOpen, eventsOpen, active, pending)
    }

    constructor ()
      ensures Valid() && fresh(ring) && View() == EMPTY && Flags() == Flow.INITIAL
    {
      ring := new Queued[CAPACITY](i => Queued(0, [], false));
      head, size, next := 0, 0, 1;
      callback, registrations, registrationOpen, eventsOpen, active, pending := None, 0, true, true, None, false;
    }

    /** The queue part of `Enqueue`. */
    method Push(payload: seq<u8>) returns (wasEmpty: bool)
      requires Valid()
      modifies this`head, this`size, this`next, ring
      ensures Valid() && View() == Enqueued(old(View()), payload) && wasEmpty == (old(size) == 0)
    {
      hide Contents;
      var event := Queued(next, payload, false);
      next := Wrap(next + 1);
      if size == CAPACITY {
        DropFirst(ring[..], head, size);
        head := (head + 1) % CAPACITY;
        size := size - 1;
        event := event.(flagged := true);
      }
      wasEmpty := size == 0;
      var tail := (head + size) % CAPACITY;
      PutLast(ring[..], head, size, event);
      ghost var before := ring[..];
      ring[tail] := event;
      assert ring[..] == before[tail := event];
      size := size + 1;
    }

    method Poll() returns (event: Option<Queued>)
      requires Valid()
      modifies this`head, this`size
      ensures Valid() && (View(), event) == Polled(old(View())) && Flags() == old(Flags())
    {
      if size == 0 {
        return None;
      }
      hide Contents;
      DropFirst(ring[..], head, size);
      event := Some(ring[head]);
      head := (head + 1) % CAPACITY;
      size := size - 1;
    }

    /** `PrepareCallbackLocked`. */
    method Prepare(t: nat) returns (target: Option<nat>)
      modifies this`active
      ensures (Flags(), target) == Flow.Prepare(old(Flags()), t)
    {
      if callback.None? || active.Some? {
        return None;
      }
      active := Some(t);
      return callback;
    }

    /** The lock section of `Enqueue`. */
    method Enqueue(payload: seq<u8>, t: nat) returns (target: Option<nat>)
      requires Valid()
      modifies this, ring
      ensures Valid()
      ensures View() == if old(eventsOpen) then Enqueued(old(View()), payload) else old(View())
      ensures (Flags(), target) == if old(eventsOpen) then Flow.Arrive(old(Flags()), t, old(size) == 0)
              else (old(Flags()), None)
    {
      target := None;
      if !eventsOpen {
        return;
      }
      var wasEmpty := Push(payload);
      if wasEmpty {
        if active.Some? {
          pending := callback.Some?;
        } else {
          target := Prepare(t);
        }
      }
    }

    /** The lock section of `SetCallback` with a callback. */
    method Register(t: nat) returns (ok: bool, target: Option<nat>)
      requires Valid()
      modifies this`callback, this`registrations, this`active
      ensures Valid() && View() == old(View()) && ok == Flow.MayRegister(old(Flags()))
      ensures ok ==> (Flags(), target) == Flow.Register(old(Flags()), t, size == 0)
      ensures !ok ==> Flags() == old(Flags())
    {
      if !registrationOpen || callback.Some? || active.Some? {
        return false, None;
      }
      registrations := registrations + 1;
      callback := Some(registrations);
      target := None;
      if size != 0 {
        target := Prepare(t);
      }
      return true, target;
    }

    /** The lock section of `SetCallback` without one, up to its wait. */
    method Unregister(t: nat) returns (mustWait: bool)
      requires Valid()
      modifies this`callback, this`pending
      ensures Valid() && View() == old(View()) && Flags() == Flow.Unregister(old(Flags()))
      ensures mustWait == Flow.MustWait(old(Flags()), t)
    {
      callback := None;
      pending := false;
      return active.Some? && active != Some(t);
    }

    /** The lock section that ends a callback. */
    method Return(t: nat) returns (target: Option<nat>)
      requires Valid()
      modifies this`active, this`pending
      ensures Valid() && View() == old(View()) && (Flags(), target) == Flow.Return(old(Flags()), t)
    {
      active := None;
      target := None;
      if pending {
        pending := false;
        target := Prepare(t);
      }
    }
  }
}
