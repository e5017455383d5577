/** Wakeup callbacks of the event channel: its lock sections, and every interleaving of them. */
module EventChannel {
  import opened Common

  type Thread = nat

  /** What the lock guards besides the queue. A registration is known by its number; `active` is the thread that runs
      a callback. */
  datatype Flags = Flags(callback: Option<nat>, registrations: nat, registrationOpen: bool, eventsOpen: bool,
                         active: Option<Thread>, pending: bool)

  const INITIAL := Flags(None, 0, true, true, None, false)

  // ----- Lock sections: the flags afterwards, and the registration whose callback the thread is to invoke -----

  function Prepare(f: Flags, t: Thread): (Flags, Option<nat>) {
    if f.callback.None? || f.active.Some? then (f, None) else (f.(active := Some(t)), f.callback)
  }

  /** `Enqueue` on open channels. */
  function Arrive(f: Flags, t: Thread, wasEmpty: bool): (Flags, Option<nat>) {
    if !wasEmpty then (f, None)
    else if f.active.Some? then (f.(pending := f.callback.Some?), None)
    else Prepare(f, t)
  }

  predicate MayRegister(f: Flags) {
    f.registrationOpen && f.callback.None? && f.active.None?
  }

  function Register(f: Flags, t: Thread, empty: bool): (Flags, Option<nat>)
    requires MayRegister(f)
  {
    var g := f.(callback := Some(f.registrations + 1), registrations := f.registrations + 1);
    if empty then (g, None) else Prepare(g, t)
  }

  /** `SetCallback(nullptr)` up to its wait. */
  function Unregister(f: Flags): Flags {
    f.(callback := None, pending := false)
  }

  /** The thread has to wait for a callback on another one. */
  predicate MustWait(f: Flags, t: Thread) {
    f.active.Some? && f.active != Some(t)
  }

  /** `FinishShutdown` up to its wait. */
  function Shut(f: Flags): Flags {
    f.(registrationOpen := false, eventsOpen := false)
  }

  /** The end of a callback, in `InvokeCallback`. */
  function Return(f: Flags, t: Thread): (Flags, Option<nat>) {
    var g := f.(active := None);
    if g.pending then Prepare(g.(pending := false), t) else (g, None)
  }

  // ----- The channel and its threads -----

  datatype Wait = ForUnregister(upTo: nat) | ForShutdown

  /** `size` is the length of the queue. `running` holds the threads between taking a callback to invoke and its end,
      `waiting` those inside a wait. For the record: `started` is the registration of the latest callback started since
      the queue last became nonempty, `barrier` the highest registration that a returned unregistration has ended, and
      `down` whether a shutdown has returned, both on a thread other than the callback's. */
  datatype Channel = Channel(flags: Flags, size: nat, running: map<Thread, nat>, waiting: map<Thread, Wait>,
                             started: Option<nat>, barrier: nat, down: bool)

  datatype Step =
    | Enqueues(t: Thread)
    | Polls(t: Thread)
    | Registers(t: Thread)
    | Unregisters(t: Thread)
    | BeginsShutdown(t: Thread)
    | FinishesShutdown(t: Thread)
    | Wakes(t: Thread)
    | CallbackReturns(t: Thread)

  const OPEN := Channel(INITIAL, 0, map[], map[], None, 0, false)

  /** Take over the outcome of a lock section by `t`. */
  function Took(c: Channel, t: Thread, outcome: (Flags, Option<nat>)): Channel {
    var (flags, target) := outcome;
    if target.None? then c.(flags := flags)
    else c.(flags := flags, running := c.running[t := target.value], started := target)
  }

  function Ended(c: Channel, t: Thread, upTo: nat): Channel {
    c.(barrier := Max(c.barrier, upTo), waiting := c.waiting - {t})
  }

  function Down(c: Channel, t: Thread): Channel {
    c.(flags := Unregister(c.flags), waiting := c.waiting - {t}, down := true)
  }

  /** One atomic step. A waiting thread only wakes, and only when no callback is active; a thread in a callback may
      call the channel again. */
  function Next(c: Channel, step: Step): Channel {
    var t, f := step.t, c.flags;
    if t in c.waiting then
      if !step.Wakes? || f.active.Some? then c
      else if c.waiting[t].ForShutdown? then Down(c, t)
      else Ended(c, t, c.waiting[t].upTo)
    else
      match step
      case Enqueues(_) =>
        if !f.eventsOpen then c
        else
          var wasEmpty := c.size == 0;
          Took(c.(size := if c.size == 64 then 64 else c.size + 1, started := if wasEmpty then None else c.started), t,
               Arrive(f, t, wasEmpty))
      case Polls(_) => if c.size == 0 then c else c.(size := c.size - 1)
      case Registers(_) => if !MayRegister(f) then c else Took(c, t, Register(f, t, c.size == 0))
      case Unregisters(_) =>
        var d := c.(flags := Unregister(f));
        if MustWait(f, t) then d.(waiting := c.waiting[t := ForUnregister(f.registrations)])
        else if f.active.Some? then d
        else Ended(d, t, f.registrations)
      case BeginsShutdown(_) => c.(flags := f.(registrationOpen := false))
      case FinishesShutdown(_) =>
        var d := c.(flags := Shut(f));
        if MustWait(f, t) then d.(waiting := c.waiting[t := ForShutdown])
        else if f.active.Some? then d.(flags := Unregister(d.flags))
        else Down(d, t)
      case Wakes(_) => c
      case CallbackReturns(_) => if t !in c.running then c else Took(c.(running := c.running - {t}), t, Return(f, t))
  }

  function Run(c: Channel, steps: seq<Step>): Channel
    decreases |steps|
  {
    if |steps| == 0 then c else Run(Next(c, steps[0]), steps[1..])
  }

  // ----- What holds in every interleaving -----

  /** One callback at a time, on the thread the flags name. */
  ghost predicate OneCallback(c: Channel) {
    if c.flags.active.None? then c.running == map[] else c.running.Keys == {c.flags.active.value}
  }

  /** A wakeup is owed or was given since the queue last became nonempty, to the present registration. */
  ghost predicate NoLostWakeup(c: Channel) {
    c.flags.callback.Some? && c.size > 0 ==> c.flags.pending || c.started == c.flags.callback
  }

  /** Callbacks of registrations that were ended neither run nor can start. */
  ghost predicate Barrier(c: Channel) {
    && (forall t :: t in c.running ==> c.running[t] > c.barrier)
    && (c.flags.callback.Some? ==> c.flags.callback.value > c.barrier)
    && (c.down ==> c.running == map[] && c.flags.callback.None? && !c.flags.registrationOpen && !c.flags.eventsOpen)
  }

  ghost predicate Inv(c: Channel) {
    && OneCallback(c) && NoLostWakeup(c) && Barrier(c)
    && (c.flags.pending ==> c.flags.active.Some? && c.flags.callback.Some?)
    && (c.flags.callback.Some? ==> c.flags.callback.value <= c.flags.registrations)
    && c.barrier <= c.flags.registrations
    && (forall t :: t in c.waiting ==> t !in c.running && WaitOk(c.flags, c.waiting[t]))
    && c.size <= 64
  }

  /** A thread waits with what it has already done in place. */
  ghost predicate WaitOk(f: Flags, wait: Wait) {
    match wait
    case ForShutdown => !f.registrationOpen && !f.eventsOpen
    case ForUnregister(upTo) => upTo <= f.registrations && (f.callback.Some? ==> f.callback.value > upTo)
  }

  lemma WakeInv(c: Channel, step: Step)
    requires Inv(c) && step.t in c.waiting
    ensures Inv(Next(c, step))
  {
  }

  lemma EnqueueInv(c: Channel, t: Thread)
    requires Inv(c) && t !in c.waiting
    ensures Inv(Next(c, Enqueues(t)))
  {
  }

  lemma RegisterInv(c: Channel, t: Thread)
    requires Inv(c) && t !in c.waiting
    ensures Inv(Next(c, Registers(t)))
  {
  }

  lemma UnregisterInv(c: Channel, t: Thread)
    requires Inv(c) && t !in c.waiting
    ensures Inv(Next(c, Unregisters(t)))
  {
  }

  lemma FinishInv(c: Channel, t: Thread)
    requires Inv(c) && t !in c.waiting
    ensures Inv(Next(c, FinishesShutdown(t)))
  {
  }

  lemma ReturnInv(c: Channel, t: Thread)
    requires Inv(c) && t !in c.waiting
    ensures Inv(Next(c, CallbackReturns(t)))
  {
    if t in c.running {
      assert c.running - {t} == map[];
    }
  }

  lemma OtherInv(c: Channel, step: Step)
    requires Inv(c) && step.t !in c.waiting && (step.Polls? || step.BeginsShutdown? || step.Wakes?)
    ensures Inv(Next(c, step))
  {
  }

  /** Every step of every thread keeps the invariant. */
  lemma NextInv(c: Channel, step: Step)
    requires Inv(c)
    ensures Inv(Next(c, step))
  {
    if step.t in c.waiting {
      WakeInv(c, step);
    } else {
      match step
      case Enqueues(t) => EnqueueInv(c, t);
      case Registers(t) => RegisterInv(c, t);
      case Unregisters(t) => UnregisterInv(c, t);
      case FinishesShutdown(t) => FinishInv(c, t);
      case CallbackReturns(t) => ReturnInv(c, t);
      case _ => OtherInv(c, step);
    }
  }

  lemma {:induction false} RunInv(c: Channel, steps: seq<Step>)
    requires Inv(c)
    ensures Inv(Run(c, steps))
    decreases |steps|
  {
    if |steps| > 0 {
      NextInv(c, steps[0]);
      hide Next, Inv;
      RunInv(Next(c, steps[0]), steps[1..]);
    }
  }

  /** In every interleaving at most one callback runs at a time, and no wakeup is lost. */
  lemma OneAtATimeAndAwake(steps: seq<Step>)
    ensures var c := Run(OPEN, steps);
            && (forall t, u :: t in c.running && u in c.running ==> t == u)
            && NoLostWakeup(c)
  {
    RunInv(OPEN, steps);
    hide Run;
  }

  /** `t` is still inside the wait of its unregistration, or the registrations up to `upTo` are ended for good. */
  ghost predicate Ending(c: Channel, t: Thread, upTo: nat) {
    (t in c.waiting && c.waiting[t] == ForUnregister(upTo)) || c.barrier >= upTo
  }

  lemma {:induction false} EndingStays(c: Channel, t: Thread, upTo: nat, steps: seq<Step>)
    requires Ending(c, t, upTo)
    ensures Ending(Run(c, steps), t, upTo) && (c.barrier >= upTo ==> Run(c, steps).barrier >= upTo)
    decreases |steps|
  {
    if |steps| > 0 {
      var d := Next(c, steps[0]);
      assert Ending(d, t, upTo) && (c.barrier >= upTo ==> d.barrier >= upTo);
      hide Next, Ending;
      EndingStays(d, t, upTo, steps[1..]);
    }
  }

  /** A real barrier: once `SetCallback(nullptr)` has returned on a thread other than the callback's, no callback
      registered before it runs, then or ever after. */
  lemma UnregisterIsBarrier(before: seq<Step>, t: Thread, between: seq<Step>, after: seq<Step>)
    requires t !in Run(OPEN, before).waiting && Run(OPEN, before).flags.active != Some(t)
    requires t !in Run(Next(Run(OPEN, before), Unregisters(t)), between).waiting
    ensures var c := Run(OPEN, before);
            var later := Run(Run(Next(c, Unregisters(t)), between), after);
            forall u :: u in later.running ==> later.running[u] > c.flags.registrations
  {
    var c := Run(OPEN, before);
    RunInv(OPEN, before);
    var d := Next(c, Unregisters(t));
    NextInv(c, Unregisters(t));
    assert Ending(d, t, c.flags.registrations);
    hide Run, Next;
    EndingStays(d, t, c.flags.registrations, between);
    EndingStays(Run(d, between), t, c.flags.registrations, after);
    RunInv(d, between);
    RunInv(Run(d, between), after);
  }

  ghost predicate Closing(c: Channel, t: Thread) {
    (t in c.waiting && c.waiting[t] == ForShutdown) || c.down
  }

  lemma {:induction false} ClosingStays(c: Channel, t: Thread, steps: seq<Step>)
    requires Closing(c, t)
    ensures Closing(Run(c, steps), t) && (c.down ==> Run(c, steps).down)
    decreases |steps|
  {
    if |steps| > 0 {
      var d := Next(c, steps[0]);
      assert Closing(d, t) && (c.down ==> d.down);
      hide Next, Closing;
      ClosingStays(d, t, steps[1..]);
    }
  }

  /** Once `FinishShutdown` has returned on a thread other than the callback's, no callback runs, none is registered
      and no event is taken in, ever after. */
  lemma ShutdownIsBarrier(before: seq<Step>, t: Thread, between: seq<Step>, after: seq<Step>)
    requires t !in Run(OPEN, before).waiting && Run(OPEN, before).flags.active != Some(t)
    requires t !in Run(Next(Run(OPEN, before), FinishesShutdown(t)), between).waiting
    ensures var later := Run(Run(Next(Run(OPEN, before), FinishesShutdown(t)), between), after);
            later.running == map[] && later.flags.callback.None? && !later.flags.eventsOpen
  {
    var c := Run(OPEN, before);
    RunInv(OPEN, before);
    var d := Next(c, FinishesShutdown(t));
    NextInv(c, FinishesShutdown(t));
    assert Closing(d, t);
    hide Run, Next;
    ClosingStays(d, t, between);
    ClosingStays(Run(d, between), t, after);
    RunInv(d, between);
    RunInv(Run(d, between), after);
  }
}
