/** Network interfaces: bounded selection of what the system reports, and the generation
    each selected interface carries from one report to the next. */
module InterfaceRegistry {
  import opened Common
  import opened BoundedSelection
  import opened DiscoveryTypes

  datatype RawInterface = RawInterface(index: u32, family: Family, address: IpAddress, prefixLength: u8)

  datatype NetworkInterface = NetworkInterface(scope: Scope, index: u32, address: IpAddress, prefixLength: u8)

  predicate RawLess(a: RawInterface, b: RawInterface) {
    if a.index != b.index then a.index < b.index
    else if a.family != b.family then FamilyRank(a.family) < FamilyRank(b.family)
    else if a.address != b.address then AddressLess(a.address, b.address)
    else a.prefixLength < b.prefixLength
  }

  predicate SameLink(a: RawInterface, b: RawInterface) {
    a.index == b.index && a.family == b.family
  }

  lemma RawOrder()
    ensures Ordering(RawLess, SameLink)
  {
    AddressOrder();
    forall a: RawInterface, b: RawInterface, c: RawInterface | RawLess(a, b) && RawLess(b, c)
      ensures RawLess(a, c) && (SameLink(a, c) ==> SameLink(a, b))
    {
    }
  }

  function Chosen(raws: seq<RawInterface>): seq<RawInterface> {
    SelectFrom(raws, MAX_SCOPES, RawLess, SameLink)
  }

  /** The least report of each of the smallest (index, family) pairs, whatever order the system reports them in. */
  lemma ChosenSelects(raws: seq<RawInterface>)
    ensures Selects(Chosen(raws), Members(raws), MAX_SCOPES, RawLess, SameLink)
    ensures forall other :: Members(other) == Members(raws) ==> Chosen(other) == Chosen(raws)
  {
    RawOrder();
    SelectFromSelects(raws, MAX_SCOPES, RawLess, SameLink);
    forall other | Members(other) == Members(raws) ensures Chosen(other) == Chosen(raws) {
      SelectionOrderFree(other, raws, MAX_SCOPES, RawLess, SameLink);
    }
  }

  /** A vector as the insertions leave it. */
  ghost predicate Kept(interfaces: seq<RawInterface>) {
    Sorted(interfaces, RawLess) && Distinct(interfaces, SameLink)
  }

  /** `InsertBoundedRawInterface`, for any vector. */
  function Inserted(interfaces: seq<RawInterface>, candidate: RawInterface): seq<RawInterface> {
    var k := FindSame(interfaces, candidate, SameLink);
    if k < |interfaces| && RawLess(candidate, interfaces[k]) then SortFrom(interfaces[k := candidate], RawLess)
    else Insert(interfaces, candidate, MAX_SCOPES, RawLess, SameLink)
  }

  /** Replacing an element by a smaller report of its link leaves a kept vector sorted, so the sort changes nothing. */
  lemma SortIsIdleHere(interfaces: seq<RawInterface>, candidate: RawInterface)
    requires Kept(interfaces)
    ensures Inserted(interfaces, candidate) == Insert(interfaces, candidate, MAX_SCOPES, RawLess, SameLink)
  {
    RawOrder();
    var k := FindSame(interfaces, candidate, SameLink);
    hide Ordering, RawLess, SameLink;
    if k < |interfaces| && RawLess(candidate, interfaces[k]) {
      ReplaceInOrder(interfaces, candidate, k, RawLess, SameLink);
      SortIsIdle(interfaces[k := candidate], RawLess);
    }
  }

  method InsertBoundedRawInterface(interfaces: seq<RawInterface>, candidate: RawInterface)
    returns (r: seq<RawInterface>)
    ensures r == Inserted(interfaces, candidate)
    ensures Kept(interfaces) ==> r == Insert(interfaces, candidate, MAX_SCOPES, RawLess, SameLink)
  {
    r := interfaces;
    var k := FindSame(r, candidate, SameLink);
    if Kept(interfaces) {
      SortIsIdleHere(interfaces, candidate);
    }
    if k < |r| {
      if RawLess(candidate, r[k]) {
        r := r[k := candidate];
        r := SortFrom(r, RawLess);
      }
      return;
    }
    var position := LowerBound(r, candidate, RawLess);
    if |r| < MAX_SCOPES {
      r := InsertAt(r, position, candidate);
    } else if position < |r| {
      r := InsertAt(r, position, candidate);
      r := r[..|r| - 1];
    }
  }

  // ----- Generations -----

  function AsRaw(n: NetworkInterface): RawInterface {
    RawInterface(n.index, n.scope.family, n.address, n.prefixLength)
  }

  function WithGeneration(raw: RawInterface, generation: u64): NetworkInterface {
    NetworkInterface(Scope(generation, raw.family), raw.index, raw.address, raw.prefixLength)
  }

  /** The position in `active` of the interface reported as `raw`, or the length. */
  function FindActive(active: seq<NetworkInterface>, raw: RawInterface): (i: nat)
    ensures i <= |active| && (forall j :: 0 <= j < i ==> AsRaw(active[j]) != raw)
    ensures i < |active| ==> AsRaw(active[i]) == raw
  {
    if |active| == 0 || AsRaw(active[0]) == raw then 0 else 1 + FindActive(active[1..], raw)
  }

  datatype Registry = Registry(active: seq<NetworkInterface>, next: u64)

  /** The interfaces and the counter after giving generations to `raws` in order. */
  function Assign(raws: seq<RawInterface>, r: Registry): (out: Registry)
    ensures r.next <= out.next && |out.active| <= |raws|
  {
    if |raws| == 0 then Registry([], r.next)
    else
      var raw := raws[|raws| - 1];
      var before := Assign(raws[..|raws| - 1], r);
      var k := FindActive(r.active, raw);
      if k < |r.active| then before.(active := before.active + [WithGeneration(raw, r.active[k].scope.generation)])
      else if before.next == 0 || before.next == U64_MAX then before
      else Registry(before.active + [WithGeneration(raw, before.next)], before.next + 1)
  }

  /** Every generation in use was issued, and to one interface. */
  ghost predicate Issued(r: Registry) {
    && r.next >= 1
    && (forall i :: 0 <= i < |r.active| ==> r.active[i].scope.generation < r.next)
    && (forall i, j :: 0 <= i < j < |r.active| ==> r.active[i].scope.generation != r.active[j].scope.generation)
  }

  class InterfaceGenerationRegistry {
    var active: seq<NetworkInterface>
    var next: u64

    ghost function View(): Registry
      reads this
    {
      Registry(active, next)
    }

    constructor ()
      ensures View() == Registry([], 1) && Issued(View())
    {
      active, next := [], 1;
    }

    method Update(interfaces: seq<RawInterface>) returns (replacement: seq<NetworkInterface>)
      requires Issued(View())
      modifies this
      ensures View() == Assign(Chosen(interfaces), old(View())) && replacement == active
      ensures Issued(View())
    {
      var canonical := [];
      for i := 0 to |interfaces|
        invariant canonical == Chosen(interfaces[..i])
        invariant unchanged(this)
      {
        assert interfaces[..i + 1][..i] == interfaces[..i];
        ChosenSelects(interfaces[..i]);
        canonical := InsertBoundedRawInterface(canonical, interfaces[i]);
      }
      assert interfaces[..|interfaces|] == interfaces;
      replacement := [];
      for i := 0 to |canonical|
        invariant active == old(active)
        invariant Registry(replacement, next) == Assign(canonical[..i], old(View()))
      {
        assert canonical[..i + 1][..i] == canonical[..i];
        var k := FindActive(active, canonical[i]);
        var generation := 0;
        if k < |active| {
          generation := active[k].scope.generation;
        } else {
          if next == 0 || next == U64_MAX {
            continue;
          }
          generation := next;
          next := next + 1;
        }
        replacement := replacement + [WithGeneration(canonical[i], generation)];
      }
      assert canonical[..|canonical|] == canonical;
      ChosenSelects(interfaces);
      AssignIssued(canonical, old(View()));
      active := replacement;
    }
  }

  /** `n` was reported in `raws`, and either was active as it is or carries a generation never issued. */
  ghost predicate ComesFrom(n: NetworkInterface, raws: seq<RawInterface>, r: Registry) {
    AsRaw(n) in raws && (n in r.active || r.next <= n.scope.generation)
  }

  lemma {:induction false} AssignedFrom(raws: seq<RawInterface>, r: Registry)
    ensures forall n :: n in Assign(raws, r).active ==> ComesFrom(n, raws, r)
  {
    if |raws| > 0 {
      var front, raw := raws[..|raws| - 1], raws[|raws| - 1];
      AssignedFrom(front, r);
      assert raws == front + [raw];
      var k := FindActive(r.active, raw);
      if k < |r.active| {
        assert WithGeneration(raw, r.active[k].scope.generation) == r.active[k];
      }
      forall n | n in Assign(raws, r).active ensures ComesFrom(n, raws, r) {
        if n in Assign(front, r).active {
          assert ComesFrom(n, front, r);
        }
      }
    }
  }

  ghost predicate OneEach(active: seq<NetworkInterface>) {
    forall i, j :: 0 <= i < j < |active| ==> AsRaw(active[i]) != AsRaw(active[j])
  }

  /** What comes from the reports before the last is not the last. */
  lemma ComesApart(raws: seq<RawInterface>, r: Registry, n: NetworkInterface)
    requires Issued(r) && Distinct(raws, SameLink) && |raws| > 0 && ComesFrom(n, raws[..|raws| - 1], r)
    ensures var raw := raws[|raws| - 1]; var k := FindActive(r.active, raw);
            AsRaw(n) != raw && (k < |r.active| ==> n.scope.generation != r.active[k].scope.generation)
  {
    var front, raw := raws[..|raws| - 1], raws[|raws| - 1];
    var k := FindActive(r.active, raw);
    var m :| 0 <= m < |front| && front[m] == AsRaw(n);
    assert !SameLink(raws[m], raws[|raws| - 1]);
    if k < |r.active| && n in r.active {
      var m :| 0 <= m < |r.active| && r.active[m] == n;
      assert m != k;
    }
  }

  /** Distinct reports of active interfaces carry distinct generations, so an update keeps them distinct. */
  lemma {:induction false} AssignIssued(raws: seq<RawInterface>, r: Registry)
    requires Issued(r) && Distinct(raws, SameLink)
    ensures Issued(Assign(raws, r)) && OneEach(Assign(raws, r).active)
  {
    if |raws| > 0 {
      var front, raw := raws[..|raws| - 1], raws[|raws| - 1];
      AssignIssued(front, r);
      AssignedFrom(front, r);
      var before := Assign(front, r);
      var k := FindActive(r.active, raw);
      forall n | n in before.active
        ensures AsRaw(n) != raw
        ensures k < |r.active| ==> n.scope.generation != r.active[k].scope.generation
      {
        ComesApart(raws, r, n);
      }
      assert forall i :: 0 <= i < |before.active| ==> before.active[i] in before.active;
    }
  }

  /** An interface that is active and reported again keeps its generation. */
  lemma {:induction false} AssignKeeps(raws: seq<RawInterface>, r: Registry, n: NetworkInterface)
    requires n in r.active && AsRaw(n) in raws && OneEach(r.active)
    ensures n in Assign(raws, r).active
  {
    var front, raw := raws[..|raws| - 1], raws[|raws| - 1];
    assert raws == front + [raw];
    if raw == AsRaw(n) {
      var k := FindActive(r.active, raw);
      var m :| 0 <= m < |r.active| && r.active[m] == n;
      assert m == k && WithGeneration(raw, n.scope.generation) == n;
      assert n == Assign(raws, r).active[|Assign(front, r).active|];
    } else {
      AssignKeeps(front, r, n);
    }
  }

  /** The registry after each of a run of updates. */
  function Reports(runs: seq<seq<RawInterface>>): (r: Registry) {
    if |runs| == 0 then Registry([], 1) else Assign(Chosen(runs[|runs| - 1]), Reports(runs[..|runs| - 1]))
  }

  lemma {:induction false} ReportsIssued(runs: seq<seq<RawInterface>>)
    ensures Issued(Reports(runs)) && OneEach(Reports(runs).active)
  {
    if |runs| > 0 {
      var front, last := runs[..|runs| - 1], runs[|runs| - 1];
      ReportsIssued(front);
      ChosenSelects(last);
      hide Chosen;
      AssignIssued(Chosen(last), Reports(front));
    }
  }

  lemma {:induction false} CounterGrows(runs: seq<seq<RawInterface>>, k: nat)
    requires k <= |runs|
    ensures Reports(runs[..k]).next <= Reports(runs).next
  {
    if k < |runs| {
      CounterGrows(runs[..|runs| - 1], k);
      assert runs[..|runs| - 1][..k] == runs[..k];
    } else {
      assert runs[..k] == runs;
    }
  }

  /** Whoever carries, after an update, a generation issued before was active before it. */
  lemma IssuedBefore(runs: seq<seq<RawInterface>>, i: nat, a: NetworkInterface, b: NetworkInterface)
    requires i < |runs| && a in Reports(runs[..i]).active && b in Reports(runs).active
    requires a.scope.generation == b.scope.generation
    ensures b in Reports(runs[..|runs| - 1]).active
  {
    var front := runs[..|runs| - 1];
    assert front[..i] == runs[..i];
    ReportsIssued(runs[..i]);
    CounterGrows(front, i);
    AssignedFrom(Chosen(runs[|runs| - 1]), Reports(front));
    hide Assign, Chosen;
    assert ComesFrom(b, Chosen(runs[|runs| - 1]), Reports(front));
  }

  /** A generation is never reissued: whoever carries it after reports `i` and `j` is one interface, unchanged, and
      it was active after every report between. */
  lemma {:induction false} GenerationsNeverReissued(runs: seq<seq<RawInterface>>, i: nat, a: NetworkInterface,
                                                    b: NetworkInterface)
    requires i <= |runs| && a in Reports(runs[..i]).active && b in Reports(runs).active
    requires a.scope.generation == b.scope.generation
    ensures a == b && forall m :: i <= m <= |runs| ==> a in Reports(runs[..m]).active
  {
    hide Reports;
    if i == |runs| {
      assert runs[..i] == runs;
      ReportsIssued(runs);
    } else {
      var front := runs[..|runs| - 1];
      IssuedBefore(runs, i, a, b);
      assert front[..i] == runs[..i];
      GenerationsNeverReissued(front, i, a, b);
      forall m | i <= m <= |runs| ensures a in Reports(runs[..m]).active {
        if m < |runs| {
          assert front[..m] == runs[..m];
        } else {
          assert runs[..m] == runs;
        }
      }
    }
  }

  /** An active interface keeps its generation through an update exactly when it is among those chosen again. */
  lemma KeptWhenReportedAgain(runs: seq<seq<RawInterface>>, report: seq<RawInterface>, n: NetworkInterface)
    requires n in Reports(runs).active
    ensures n in Reports(runs + [report]).active <==> AsRaw(n) in Chosen(report)
  {
    var all := runs + [report];
    assert all[..|all| - 1] == runs;
    ReportsIssued(runs);
    AssignedFrom(Chosen(report), Reports(runs));
    hide Assign, Chosen;
    if n in Reports(all).active {
      assert ComesFrom(n, Chosen(report), Reports(runs));
    }
    if AsRaw(n) in Chosen(report) {
      AssignKeeps(Chosen(report), Reports(runs), n);
    }
  }
}
