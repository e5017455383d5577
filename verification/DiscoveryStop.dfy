/** When the event stream tells the whole story: `Stop` drops every candidate without an event. */
module DiscoveryStop {
  import opened Common
  import opened BoundedSelection
  import opened DiscoveryTypes
  import opened DiscoveryEntries
  import opened DiscoveryWire
  import opened DiscoveryCache
  import opened DiscoveryCacheRuns

  predicate HoldsCandidate(entries: seq<Entry>) {
    exists i :: 0 <= i < |entries| && entries[i].candidate
  }

  /** Every `Stop` of a run found no candidate. */
  ghost predicate StoppedIdle(commands: seq<Command>, valid: LabelValidator) {
    forall k :: 0 <= k < |commands| && commands[k].Stop? ==> !HoldsCandidate(Run(commands[..k], valid).cache.entries)
  }

  /** Folding the events of a run gives its candidates. */
  ghost predicate Faithful(commands: seq<Command>, valid: LabelValidator) {
    Mirrors(Fold(map[], Run(commands, valid).events), Run(commands, valid).cache.entries)
  }

  lemma IdleStep(front: seq<Command>, last: Command, valid: LabelValidator)
    ensures StoppedIdle(front + [last], valid) <==>
            StoppedIdle(front, valid) && (last.Stop? ==> !HoldsCandidate(Run(front, valid).cache.entries))
  {
    hide Run, HoldsCandidate;
    var all := front + [last];
    assert all[..|front|] == front;
    assert forall k :: 0 <= k < |front| ==> all[..k] == front[..k] && all[k] == front[k];
    if StoppedIdle(all, valid) {
      forall k | 0 <= k < |front| && front[k].Stop?
        ensures !HoldsCandidate(Run(front[..k], valid).cache.entries)
      {
        assert all[k].Stop? && all[..k] == front[..k];
      }
      assert last.Stop? ==> all[|front|].Stop?;
    }
  }

  lemma RunStep(front: seq<Command>, last: Command, valid: LabelValidator)
    ensures var before := Run(front, valid); var step := Step(before.cache, last, valid);
            Run(front + [last], valid) == Outcome(step.cache, before.events + step.events)
  {
    hide Step;
    assert (front + [last])[..|front|] == front;
  }

  /** A cache that was stopped stays so, empty and silent. */
  lemma {:induction false} StaysStopped(commands: seq<Command>, valid: LabelValidator)
    requires !NeverStopped(commands)
    ensures Run(commands, valid).cache.phase == Stopped && Run(commands, valid).cache.entries == []
  {
    var front, last := commands[..|commands| - 1], commands[|commands| - 1];
    assert commands == front + [last];
    RunStep(front, last, valid);
    hide Run;
    if !last.Stop? {
      var k :| 0 <= k < |commands| && commands[k].Stop?;
      assert front[k].Stop?;
      StaysStopped(front, valid);
    }
  }

  lemma StoppedStep(c: Cache, command: Command, valid: LabelValidator)
    requires c.phase == Stopped && c.entries == []
    ensures Step(c, command, valid).events == [] && Step(c, command, valid).cache.entries == []
  {
  }

  /** With nothing left, a table mirrors the cache exactly when what it mirrored held no candidate. */
  lemma MirrorsNothing(m: Table, entries: seq<Entry>)
    requires UniqueKeys(entries) && Mirrors(m, entries)
    ensures Mirrors(m, []) <==> !HoldsCandidate(entries)
  {
    forall key: Key ensures Lookup([], key).None? {}
    if HoldsCandidate(entries) {
      var i :| 0 <= i < |entries| && entries[i].candidate;
      var key := entries[i].value.key;
      assert Find(entries, key) == i;
      assert Shows(m, key) == Visible(Lookup(entries, key));
      assert Shows(m, key) != Visible(Lookup([], key));
    } else {
      forall key: Key ensures Shows(m, key) == Visible(Lookup([], key)) {
        assert Shows(m, key) == Visible(Lookup(entries, key));
      }
    }
  }

  /** Over every run: the events tell exactly which candidates there are if and only if no `Stop` found one. */
  lemma {:induction false} FaithfulExactlyWhenIdle(commands: seq<Command>, valid: LabelValidator)
    ensures Faithful(commands, valid) <==> StoppedIdle(commands, valid)
  {
    hide Mirrors, HoldsCandidate, Run, Step;
    if NeverStopped(commands) {
      EventsRefineCache(commands, valid);
    } else {
      var front, last := commands[..|commands| - 1], commands[|commands| - 1];
      assert commands == front + [last];
      FaithfulExactlyWhenIdle(front, valid);
      IdleStep(front, last, valid);
      RunStep(front, last, valid);
      StaysStopped(commands, valid);
      var before := Run(front, valid);
      if NeverStopped(front) {
        assert last.Stop?;
        RunInv(front, valid);
        InvUnique(before.cache);
        EventsRefineCache(front, valid);
        MirrorsNothing(Fold(map[], before.events), before.cache.entries);
        StopIsSilent(before.cache, valid);
      } else {
        StaysStopped(front, valid);
        StoppedStep(before.cache, last, valid);
        NothingHeld();
      }
      assert before.events + [] == before.events;
    }
  }

  lemma NothingHeld()
    ensures !HoldsCandidate([])
  {
  }

  lemma InvUnique(c: Cache)
    requires Inv(c)
    ensures UniqueKeys(c.entries)
  {
  }

  lemma StopIsSilent(c: Cache, valid: LabelValidator)
    ensures Step(c, Stop, valid).events == []
  {
  }

  // ----- A run that shows it -----

  const HERE := Scope(1, Ipv4)
  const NEIGHBOUR: IpAddress := Address(Ipv4, [192, 168, 0, 2])
  const FROM_NEIGHBOUR := Metadata(HERE, NEIGHBOUR, Address(Ipv4, IPV4_GROUP), DISCOVERY_PORT, true, false, false)
  const HEARD: seq<u8> := Encode(Announce, 1, TOKEN, 4_242, 15, [])

  lemma OneScope()
    ensures Canonical([HERE]) == [HERE]
  {
    assert [HERE][..0] == [];
    assert SelectFrom([HERE][..0], MAX_SCOPES, ScopeLess, SameScope) == [];
  }

  function Up(): Cache {
    Started(Initial(), [HERE], 0)
  }

  lemma UpHere()
    ensures Up().phase == Running && Up().now == 0 && Up().entries == [] && Up().locals == []
    ensures Up().limits.sources == []
    ensures Up().limits.global == FullBucket(256.0, 512.0, 0)
    ensures Up().limits.scopes == [ScopeState(HERE, FullBucket(128.0, 256.0, 0))]
  {
    OneScope();
    assert [HERE][..0] == [];
  }

  lemma NeighbourAdmitted()
    ensures MetadataOk(Up(), FROM_NEIGHBOUR) && Admit(Up().limits, HERE, NEIGHBOUR, 0).1
  {
    UpHere();
    hide Up;
    assert FindScope(Up().limits.scopes, HERE) == 0;
    assert DropIdle([], 0) == [] && SourcesIn([], HERE) == 0;
  }

  lemma HeardParses(valid: LabelValidator)
    ensures Parse(HEARD, valid) == Ok(Advertisement(Announce, 1, TOKEN, 4_242, 15, [], HEARD))
    ensures |HEARD| <= MAX_DATAGRAM_SIZE
  {
    assert TOKEN[0] == 1;
    hide Parse, Encode;
    ParseEncoded(Announce, 1, TOKEN, 4_242, 15, [], valid);
  }

  lemma NeighbourAppears(valid: LabelValidator)
    ensures HoldsCandidate(Received(Up(), FROM_NEIGHBOUR, HEARD, 0, valid).0.entries)
  {
    hide Up, Admit, Parse, Encode, MetadataOk;
    UpHere();
    NeighbourAdmitted();
    HeardParses(valid);
    assert Swept(EraseTombstones(0), []) == [];
    assert forall tally: Tally :: Total(tally, []) == 0;
    var entries := Received(Up(), FROM_NEIGHBOUR, HEARD, 0, valid).0.entries;
    assert entries[0].candidate;
  }

  /** A cache that hears a neighbour and is stopped has told of a candidate that is gone. */
  lemma StopForgets(valid: LabelValidator)
    ensures !Faithful([Start([HERE], 0), Receive(FROM_NEIGHBOUR, HEARD, 0), Stop], valid)
  {
    hide Received, HoldsCandidate, Faithful, Started, Encode, Run;
    var start, hear := Start([HERE], 0), Receive(FROM_NEIGHBOUR, HEARD, 0);
    var commands := [start, hear, Stop];
    FaithfulExactlyWhenIdle(commands, valid);
    assert commands[..2] == [start] + [hear];
    assert [start] == [] + [start];
    RunStep([start], hear, valid);
    RunStep([], start, valid);
    NothingRun(valid);
    NeighbourAppears(valid);
    assert commands[2].Stop?;
  }

  lemma NothingRun(valid: LabelValidator)
    ensures Run([], valid) == Outcome(Initial(), [])
  {
  }
}
