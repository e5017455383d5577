/** All publishers of a discovery service over every run, and what a receiver makes of
    what they send. */
module PublishingService {
  import opened Common
  import opened DiscoveryTypes
  import opened DiscoveryEntries
  import opened DiscoveryWire
  import opened DiscoveryCache
  import opened DiscoveryCacheRuns
  import opened InterfaceRegistry
  import opened Publishing

  /** `sent` is everything handed to the transport, `drawn` every token generated, in order. */
  datatype Service = Service(publishers: seq<Publisher>, sent: seq<Datagram>, drawn: seq<Token>)

  datatype Operation =
    | AnnounceAt(i: nat, config: Config, draw: Draw)
    | RotateAt(i: nat, config: Config, draw: Draw)
    | Refresh(list: seq<NetworkInterface>, config: Config, draws: seq<Draw>)
    | Begin(list: seq<NetworkInterface>, draws: seq<Draw>)
    | Shutdown

  function Acted(s: Service, i: nat, act: Act): Service
    requires i < |s.publishers|
  {
    Service(s.publishers[i := act.publisher], s.sent + act.sent, s.drawn + act.drawn)
  }

  predicate OnAny(interfaces: seq<NetworkInterface>, scope: Scope) {
    exists i :: 0 <= i < |interfaces| && interfaces[i].scope == scope
  }

  /** The withdrawals of the publishers that are on none of `kept`. */
  function Farewells(publishers: seq<Publisher>, kept: seq<NetworkInterface>, valid: LabelValidator): seq<Datagram> {
    if |publishers| == 0 then []
    else
      var front, last := Farewells(publishers[..|publishers| - 1], kept, valid), publishers[|publishers| - 1];
      if OnAny(kept, last.scope) then front else front + WithdrawOne(last, valid).1
  }

  function FindPublisher(publishers: seq<Publisher>, scope: Scope): (i: nat)
    ensures i <= |publishers| && (i < |publishers| ==> publishers[i].scope == scope)
  {
    if |publishers| == 0 || publishers[0].scope == scope then 0 else 1 + FindPublisher(publishers[1..], scope)
  }

  /** A service under construction; `ok` until a publisher cannot be made. */
  datatype Build = Build(service: Service, ok: bool)

  /** `CreatePublisherLocked`, and the first announcement when `config` is given. */
  function Made(s: Service, scope: Scope, draw: Draw, config: Option<Config>, valid: LabelValidator): Build {
    var token := GenerateToken(draw.fills, 4);
    if token.None? then Build(s, false)
    else
      var drawn := s.drawn + [token.value];
      var p := Publisher(scope, token.value, 1, false);
      if !draw.accepted then Build(s.(drawn := drawn), false)
      else if config.None? then Build(Service(s.publishers + [p], s.sent, drawn), true)
      else
        var (next, sent) := AnnounceOne(p, config.value, valid);
        Build(Service(s.publishers + [next], s.sent + sent, drawn), true)
  }

  /** Publishers for `interfaces` in order: those of `previous` where there is one, new ones otherwise. */
  function Rebuilt(previous: seq<Publisher>, start: Service, interfaces: seq<NetworkInterface>, draws: seq<Draw>,
                   config: Option<Config>, valid: LabelValidator): Build
  {
    if |interfaces| == 0 then Build(start, true)
    else
      var b := Rebuilt(previous, start, interfaces[..|interfaces| - 1], draws, config, valid);
      var scope := interfaces[|interfaces| - 1].scope;
      if !b.ok then b
      else
        var k := FindPublisher(previous, scope);
        if k < |previous| then b.(service := b.service.(publishers := b.service.publishers + [previous[k]]))
        else Made(b.service, scope, DrawAt(draws, |interfaces| - 1), config, valid)
  }

  function Perform(s: Service, op: Operation, valid: LabelValidator): Service {
    match op
    case AnnounceAt(i, config, draw) =>
      if i < |s.publishers| then Acted(s, i, AnnounceOrRotate(s.publishers[i], config, draw, valid)) else s
    case RotateAt(i, config, draw) =>
      if i < |s.publishers| then Acted(s, i, RotateOne(s.publishers[i], config, draw, valid)) else s
    case Refresh(list, config, draws) =>
      var interfaces := CanonicalInterfaces(list);
      Rebuilt(s.publishers, Service([], s.sent + Farewells(s.publishers, interfaces, valid), s.drawn), interfaces,
              draws, Some(config), valid).service
    case Begin(list, draws) =>
      Rebuilt([], s.(publishers := []), CanonicalInterfaces(list), draws, None, valid).service
    case Shutdown => Service([], s.sent + Farewells(s.publishers, [], valid), s.drawn)
  }

  function Performed(ops: seq<Operation>, valid: LabelValidator): Service {
    if |ops| == 0 then Service([], [], [])
    else Perform(Performed(ops[..|ops| - 1], valid), ops[|ops| - 1], valid)
  }

  // ----- The invariant -----

  ghost predicate OwnTokens(publishers: seq<Publisher>) {
    forall i, j :: 0 <= i < j < |publishers| ==> publishers[i].token != publishers[j].token
  }

  ghost predicate AllLive(publishers: seq<Publisher>, sent: seq<Datagram>, drawn: seq<Token>) {
    forall i :: 0 <= i < |publishers| ==> Live(publishers[i], sent, drawn)
  }

  ghost predicate Good(s: Service, valid: LabelValidator) {
    LogOk(s.sent, s.drawn, valid) && OwnTokens(s.publishers) && AllLive(s.publishers, s.sent, s.drawn)
  }

  lemma AfterGood(s: Service, i: nat, act: Act, valid: LabelValidator)
    requires Good(s, valid) && i < |s.publishers|
    requires LogOk(s.sent + act.sent, s.drawn + act.drawn, valid)
    requires Live(act.publisher, s.sent + act.sent, s.drawn + act.drawn)
    requires act.publisher.token == s.publishers[i].token || act.publisher.token in act.drawn
    requires forall t :: t in act.drawn ==> t !in s.drawn
    requires forall k :: 0 <= k < |act.sent| ==>
             act.sent[k].token == s.publishers[i].token || act.sent[k].token in act.drawn
    ensures Good(Acted(s, i, act), valid)
  {
    forall j | 0 <= j < |s.publishers| && j != i
      ensures Live(s.publishers[j], s.sent + act.sent, s.drawn + act.drawn)
      ensures s.publishers[j].token != act.publisher.token
    {
      assert s.publishers[j].token != s.publishers[i].token && s.publishers[j].token in s.drawn;
      LiveFrame(s.publishers[j], s.sent, act.sent, s.drawn, act.drawn);
    }
    hide Live, LogOk;
  }

  /** Farewells keep the log in order and speak only for those who leave. */
  lemma {:induction false} FarewellLog(publishers: seq<Publisher>, kept: seq<NetworkInterface>, sent: seq<Datagram>,
                                       drawn: seq<Token>, valid: LabelValidator)
    requires LogOk(sent, drawn, valid) && OwnTokens(publishers) && AllLive(publishers, sent, drawn)
    ensures LogOk(sent + Farewells(publishers, kept, valid), drawn, valid)
    ensures forall d :: d in Farewells(publishers, kept, valid) ==>
              exists i :: 0 <= i < |publishers| && publishers[i].token == d.token && !OnAny(kept, publishers[i].scope)
  {
    if |publishers| == 0 {
      assert sent + [] == sent;
    } else {
      var front, last := publishers[..|publishers| - 1], publishers[|publishers| - 1];
      var before := Farewells(front, kept, valid);
      FarewellLog(front, kept, sent, drawn, valid);
      forall d | d in before ensures d.token != last.token {
        var i :| 0 <= i < |front| && front[i].token == d.token && !OnAny(kept, front[i].scope);
        assert publishers[i].token != last.token;
      }
      assert forall d :: d in before ==>
          exists i :: 0 <= i < |publishers| && publishers[i].token == d.token && !OnAny(kept, publishers[i].scope) by {
        assert forall i :: 0 <= i < |front| ==> front[i] == publishers[i];
      }
      if !OnAny(kept, last.scope) {
        assert forall i :: 0 <= i < |before| ==> before[i] in before;
        LiveFrame(last, sent, before, drawn, []);
        assert drawn + [] == drawn;
        WithdrawLog(last, sent + before, drawn, valid);
        var more := WithdrawOne(last, valid).1;
        assert sent + (before + more) == sent + before + more;
        assert publishers[|publishers| - 1].token == last.token;
      }
    }
  }

  // ----- Rebuilding -----

  /** What holds of a service while its publishers are gathered: those carried over are as they were, the others
      speak under tokens drawn since. */
  ghost predicate Gathered(b: Service, start: Service, previous: seq<Publisher>, interfaces: seq<NetworkInterface>,
                           valid: LabelValidator) {
    && Good(b, valid)
    && |b.publishers| <= |interfaces|
    && (forall i :: 0 <= i < |b.publishers| ==> b.publishers[i].scope == interfaces[i].scope)
    && (forall i :: 0 <= i < |b.publishers| ==> b.publishers[i] in previous || b.publishers[i].token !in start.drawn)
    && start.drawn <= b.drawn && start.sent <= b.sent
    && (forall i :: |start.sent| <= i < |b.sent| ==> b.sent[i].token !in start.drawn)
  }

  lemma StillLive(p: Publisher, start: Service, b: Service)
    requires Live(p, start.sent, start.drawn) && start.drawn <= b.drawn && start.sent <= b.sent
    requires forall i :: |start.sent| <= i < |b.sent| ==> b.sent[i].token !in start.drawn
    ensures Live(p, b.sent, b.drawn)
  {
    assert b.drawn == start.drawn + b.drawn[|start.drawn|..];
    assert b.sent == start.sent + b.sent[|start.sent|..];
    LiveFrame(p, start.sent, b.sent[|start.sent|..], start.drawn, b.drawn[|start.drawn|..]);
  }

  lemma AppendGood(b: Service, p: Publisher, valid: LabelValidator)
    requires Good(b, valid) && Live(p, b.sent, b.drawn)
    requires forall i :: 0 <= i < |b.publishers| ==> b.publishers[i].token != p.token
    ensures Good(b.(publishers := b.publishers + [p]), valid)
  {
  }

  lemma CreatedGood(b: Service, scope: Scope, draw: Draw, config: Option<Config>, valid: LabelValidator)
    requires Good(b, valid) && NoRepeat(Made(b, scope, draw, config, valid).service.drawn)
    ensures var r := Made(b, scope, draw, config, valid);
            && Good(r.service, valid) && b.drawn <= r.service.drawn && b.sent <= r.service.sent
            && (forall i :: |b.sent| <= i < |r.service.sent| ==> r.service.sent[i].token !in b.drawn)
            && (if r.ok then
                  && |r.service.publishers| == |b.publishers| + 1
                  && r.service.publishers[..|b.publishers|] == b.publishers
                  && r.service.publishers[|b.publishers|].scope == scope
                  && r.service.publishers[|b.publishers|].token !in b.drawn
                else r.service.publishers == b.publishers)
  {
    var token := GenerateToken(draw.fills, 4);
    if token.Some? {
      var t := token.value;
      FreshLive(scope, t, b.sent, b.drawn, valid);
      var p, mid := Publisher(scope, t, 1, false), b.(drawn := b.drawn + [t]);
      forall i | 0 <= i < |b.publishers|
        ensures Live(b.publishers[i], mid.sent, mid.drawn) && b.publishers[i].token != t
      {
        LiveFrame(b.publishers[i], b.sent, [], b.drawn, [t]);
        assert b.sent + [] == b.sent;
      }
      if draw.accepted {
        if config.None? {
          AppendGood(mid, p, valid);
        } else {
          AnnounceLive(p, config.value, mid.sent, mid.drawn, valid);
          var (next, sent) := AnnounceOne(p, config.value, valid);
          var last := mid.(sent := mid.sent + sent);
          forall i | 0 <= i < |b.publishers| ensures Live(b.publishers[i], last.sent, last.drawn) {
            LiveFrame(b.publishers[i], mid.sent, sent, mid.drawn, []);
            assert mid.drawn + [] == mid.drawn;
          }
          AppendGood(last, next, valid);
        }
      }
    }
  }

  /** A publisher carried over is not among those already gathered. */
  lemma CarriedOver(b: Service, start: Service, previous: seq<Publisher>, interfaces: seq<NetworkInterface>, k: nat,
                    valid: LabelValidator)
    requires Gathered(b, start, previous, interfaces, valid) && OwnTokens(previous) && k < |previous|
    requires Live(previous[k], start.sent, start.drawn)
    requires forall i :: 0 <= i < |interfaces| ==> interfaces[i].scope != previous[k].scope
    requires |b.publishers| == |interfaces|
    ensures forall n: NetworkInterface :: n.scope == previous[k].scope ==>
              Gathered(b.(publishers := b.publishers + [previous[k]]), start, previous, interfaces + [n], valid)
  {
    StillLive(previous[k], start, b);
    forall i | 0 <= i < |b.publishers| ensures b.publishers[i].token != previous[k].token {
      if b.publishers[i] in previous {
        var m :| 0 <= m < |previous| && previous[m] == b.publishers[i];
        assert m != k;
      }
    }
    AppendGood(b, previous[k], valid);
  }

  lemma NewlyMade(b: Service, start: Service, previous: seq<Publisher>, interfaces: seq<NetworkInterface>,
                  n: NetworkInterface, draw: Draw, config: Option<Config>, valid: LabelValidator)
    requires Gathered(b, start, previous, interfaces, valid) && |b.publishers| == |interfaces|
    requires NoRepeat(Made(b, n.scope, draw, config, valid).service.drawn)
    ensures var r := Made(b, n.scope, draw, config, valid);
            && Gathered(r.service, start, previous, interfaces + [n], valid)
            && (r.ok ==> |r.service.publishers| == |interfaces| + 1)
  {
    CreatedGood(b, n.scope, draw, config, valid);
    var r := Made(b, n.scope, draw, config, valid).service;
    hide Good, Made;
    forall i | 0 <= i < |r.publishers|
      ensures r.publishers[i].scope == (interfaces + [n])[i].scope
      ensures r.publishers[i] in previous || r.publishers[i].token !in start.drawn
    {
      if i < |b.publishers| {
        assert r.publishers[i] == b.publishers[i];
      }
    }
    forall i | |start.sent| <= i < |r.sent| ensures r.sent[i].token !in start.drawn {
      if i < |b.sent| {
        assert r.sent[i] == b.sent[i];
      }
    }
  }

  ghost predicate Separate(interfaces: seq<NetworkInterface>) {
    forall i, j :: 0 <= i < j < |interfaces| ==> interfaces[i].scope != interfaces[j].scope
  }

  /** Those of `previous` that are on one of `interfaces` are live. */
  ghost predicate KeptLive(previous: seq<Publisher>, interfaces: seq<NetworkInterface>, start: Service) {
    forall i :: 0 <= i < |previous| && OnAny(interfaces, previous[i].scope) ==>
      Live(previous[i], start.sent, start.drawn)
  }

  lemma {:induction false} RebuiltGathered(previous: seq<Publisher>, start: Service, interfaces: seq<NetworkInterface>,
                                           draws: seq<Draw>, config: Option<Config>, valid: LabelValidator)
    requires Good(start, valid) && start.publishers == [] && OwnTokens(previous) && Separate(interfaces)
    requires KeptLive(previous, interfaces, start)
    requires NoRepeat(Rebuilt(previous, start, interfaces, draws, config, valid).service.drawn)
    ensures var b := Rebuilt(previous, start, interfaces, draws, config, valid);
            Gathered(b.service, start, previous, interfaces, valid) && (b.ok ==> |b.service.publishers| == |interfaces|)
  {
    if |interfaces| > 0 {
      var front, scope := interfaces[..|interfaces| - 1], interfaces[|interfaces| - 1].scope;
      var b, r := Rebuilt(previous, start, front, draws, config, valid),
        Rebuilt(previous, start, interfaces, draws, config, valid);
      assert forall i :: 0 <= i < |front| ==> front[i] == interfaces[i];
      assert KeptLive(previous, front, start) by {
        assert forall s :: OnAny(front, s) ==> OnAny(interfaces, s);
      }
      DrawnGrows(previous, start, interfaces, draws, config, valid);
      RebuiltGathered(previous, start, front, draws, config, valid);
      hide Good, Live, LogOk, KeptLive, OwnTokens, Gathered, Made;
      assert interfaces == front + [interfaces[|interfaces| - 1]];
      if b.ok {
        var k := FindPublisher(previous, scope);
        if k < |previous| {
          assert OnAny(interfaces, scope);
          KeptLiveAt(previous, interfaces, start, k);
          CarriedOver(b.service, start, previous, front, k, valid);
        } else {
          NewlyMade(b.service, start, previous, front, interfaces[|interfaces| - 1], DrawAt(draws, |interfaces| - 1),
                    config, valid);
        }
      } else {
        MoreInterfaces(b.service, start, previous, front, interfaces[|interfaces| - 1], valid);
      }
    } else {
      assert Gathered(start, start, previous, [], valid);
    }
  }

  lemma MoreInterfaces(b: Service, start: Service, previous: seq<Publisher>, interfaces: seq<NetworkInterface>,
                       n: NetworkInterface, valid: LabelValidator)
    requires Gathered(b, start, previous, interfaces, valid)
    ensures Gathered(b, start, previous, interfaces + [n], valid)
  {
  }

  lemma KeptLiveAt(previous: seq<Publisher>, interfaces: seq<NetworkInterface>, start: Service, k: nat)
    requires KeptLive(previous, interfaces, start) && k < |previous| && OnAny(interfaces, previous[k].scope)
    ensures Live(previous[k], start.sent, start.drawn)
  {
  }

  /** Drawing goes on only at the end. */
  lemma DrawnGrows(previous: seq<Publisher>, start: Service, interfaces: seq<NetworkInterface>, draws: seq<Draw>,
                   config: Option<Config>, valid: LabelValidator)
    requires |interfaces| > 0
    requires NoRepeat(Rebuilt(previous, start, interfaces, draws, config, valid).service.drawn)
    ensures NoRepeat(Rebuilt(previous, start, interfaces[..|interfaces| - 1], draws, config, valid).service.drawn)
  {
    var b, r := Rebuilt(previous, start, interfaces[..|interfaces| - 1], draws, config, valid).service.drawn,
                Rebuilt(previous, start, interfaces, draws, config, valid).service.drawn;
    assert b <= r;
    assert forall i :: 0 <= i < |b| ==> b[i] == r[i];
  }

  // ----- Runs -----

  lemma {:induction false} RebuiltDrawn(previous: seq<Publisher>, start: Service, interfaces: seq<NetworkInterface>,
                                        draws: seq<Draw>, config: Option<Config>, valid: LabelValidator)
    ensures start.drawn <= Rebuilt(previous, start, interfaces, draws, config, valid).service.drawn
  {
    if |interfaces| > 0 {
      RebuiltDrawn(previous, start, interfaces[..|interfaces| - 1], draws, config, valid);
    }
  }

  lemma PerformDrawn(s: Service, op: Operation, valid: LabelValidator)
    ensures s.drawn <= Perform(s, op, valid).drawn
  {
    if op.Refresh? {
      var interfaces := CanonicalInterfaces(op.list);
      RebuiltDrawn(s.publishers, Service([], s.sent + Farewells(s.publishers, interfaces, valid), s.drawn), interfaces,
                   op.draws, Some(op.config), valid);
    } else if op.Begin? {
      RebuiltDrawn([], s.(publishers := []), CanonicalInterfaces(op.list), op.draws, None, valid);
    }
    hide Rebuilt, Farewells;
  }

  lemma RefreshGood(s: Service, list: seq<NetworkInterface>, config: Config, draws: seq<Draw>, valid: LabelValidator)
    requires Good(s, valid) && NoRepeat(Perform(s, Refresh(list, config, draws), valid).drawn)
    ensures Good(Perform(s, Refresh(list, config, draws), valid), valid)
  {
    var interfaces := CanonicalInterfaces(list);
    ScopesDistinct(list);
    hide CanonicalInterfaces, Rebuilt, Farewells, Good;
    assert Separate(interfaces);
    FarewellGood(s, interfaces, valid);
    RebuiltGathered(s.publishers, Service([], s.sent + Farewells(s.publishers, interfaces, valid), s.drawn), interfaces,
                    draws, Some(config), valid);
  }

  lemma FarewellGood(s: Service, interfaces: seq<NetworkInterface>, valid: LabelValidator)
    requires Good(s, valid)
    ensures var start := Service([], s.sent + Farewells(s.publishers, interfaces, valid), s.drawn);
            Good(start, valid) && KeptLive(s.publishers, interfaces, start) && OwnTokens(s.publishers)
  {
    var farewells := Farewells(s.publishers, interfaces, valid);
    FarewellLog(s.publishers, interfaces, s.sent, s.drawn, valid);
    hide Farewells, LogOk;
    forall i | 0 <= i < |s.publishers| && OnAny(interfaces, s.publishers[i].scope)
      ensures Live(s.publishers[i], s.sent + farewells, s.drawn)
    {
      forall k | 0 <= k < |farewells| ensures farewells[k].token != s.publishers[i].token {
        assert farewells[k] in farewells;
        var m :| 0 <= m < |s.publishers| && s.publishers[m].token == farewells[k].token
          && !OnAny(interfaces, s.publishers[m].scope);
        assert m != i;
      }
      LiveFrame(s.publishers[i], s.sent, farewells, s.drawn, []);
      assert s.drawn + [] == s.drawn;
    }
  }

  lemma BeginGood(s: Service, list: seq<NetworkInterface>, draws: seq<Draw>, valid: LabelValidator)
    requires Good(s, valid) && NoRepeat(Perform(s, Begin(list, draws), valid).drawn)
    ensures Good(Perform(s, Begin(list, draws), valid), valid)
  {
    ScopesDistinct(list);
    assert Good(s.(publishers := []), valid);
    hide CanonicalInterfaces, Rebuilt, Good;
    assert Separate(CanonicalInterfaces(list));
    RebuiltGathered([], s.(publishers := []), CanonicalInterfaces(list), draws, None, valid);
  }

  /** Every operation keeps the log in order and every publisher able to speak, while tokens do not repeat. */
  lemma PerformGood(s: Service, op: Operation, valid: LabelValidator)
    requires Good(s, valid) && NoRepeat(Perform(s, op, valid).drawn)
    ensures Good(Perform(s, op, valid), valid)
  {
    match op
    case AnnounceAt(i, config, draw) =>
      if i < |s.publishers| {
        ActLive(s.publishers[i], config, draw, s.sent, s.drawn, valid);
        hide AnnounceOrRotate, Good;
        AfterGood(s, i, AnnounceOrRotate(s.publishers[i], config, draw, valid), valid);
      }
    case RotateAt(i, config, draw) =>
      if i < |s.publishers| {
        RotateLive(s.publishers[i], config, draw, s.sent, s.drawn, valid);
        hide RotateOne, Good;
        AfterGood(s, i, RotateOne(s.publishers[i], config, draw, valid), valid);
      }
    case Refresh(list, config, draws) => RefreshGood(s, list, config, draws, valid);
    case Begin(list, draws) => BeginGood(s, list, draws, valid);
    case Shutdown => FarewellGood(s, [], valid);
  }

  /** Over every run, with tokens that do not repeat: under each token the sequence numbers sent strictly increase,
      and nothing follows a withdrawal. */
  lemma {:induction false} RunGood(ops: seq<Operation>, valid: LabelValidator)
    requires NoRepeat(Performed(ops, valid).drawn)
    ensures Good(Performed(ops, valid), valid) && Ordered(Performed(ops, valid).sent)
  {
    if |ops| > 0 {
      var front, last := ops[..|ops| - 1], ops[|ops| - 1];
      PerformDrawn(Performed(front, valid), last, valid);
      var b, r := Performed(front, valid).drawn, Performed(ops, valid).drawn;
      assert forall i :: 0 <= i < |b| ==> b[i] == r[i];
      hide Perform;
      RunGood(front, valid);
      PerformGood(Performed(front, valid), last, valid);
    }
  }

  // ----- The service as an object -----

  class Publishers {
    const valid: LabelValidator
    var publishers: seq<Publisher>
    var sent: seq<Datagram>
    ghost var drawn: seq<Token>

    ghost function View(): Service
      reads this
    {
      Service(publishers, sent, drawn)
    }

    constructor (valid: LabelValidator)
      ensures View() == Service([], [], []) && this.valid == valid
    {
      this.valid := valid;
      publishers, sent, drawn := [], [], [];
    }

    method SendWithdrawal(i: nat)
      requires i < |publishers|
      modifies this
      ensures var (next, more) := WithdrawOne(old(publishers[i]), valid);
              View() == Service(old(publishers)[i := next], old(sent) + more, old(drawn))
    {
      var p := publishers[i];
      if !p.announced || p.sequence == U64_MAX {
        return;
      }
      p := p.(sequence := p.sequence + 1);
      if Sendable(Withdrawal(p), valid) {
        sent := sent + [Withdrawal(p)];
      }
      publishers := publishers[i := p.(announced := false)];
    }

    method SendAnnounce(i: nat, config: Config, draw: Draw) returns (ok: bool)
      requires i < |publishers|
      modifies this
      ensures View() == Acted(old(View()), i, AnnounceOrRotate(old(publishers[i]), config, draw, valid))
      decreases if Exhausted(publishers[i]) then 2 else 0
    {
      var p := publishers[i];
      if p.announced {
        if p.sequence == U64_MAX {
          ok := Rotate(i, config, draw);
          return;
        }
        p := p.(sequence := p.sequence + 1);
      }
      publishers := publishers[i := p];
      if !Sendable(Announcement(p, config), valid) {
        return false;
      }
      sent := sent + [Announcement(p, config)];
      publishers := publishers[i := p.(announced := true)];
      return true;
    }

    method Rotate(i: nat, config: Config, draw: Draw) returns (ok: bool)
      requires i < |publishers|
      modifies this
      ensures View() == Acted(old(View()), i, RotateOne(old(publishers[i]), config, draw, valid))
      decreases 1
    {
      var replacement := GenerateToken(draw.fills, 4);
      if replacement.None? {
        return false;
      }
      SendWithdrawal(i);
      publishers := publishers[i := Publisher(publishers[i].scope, replacement.value, 1, false)];
      drawn := drawn + [replacement.value];
      if !draw.accepted {
        return false;
      }
      ok := SendAnnounce(i, config, draw);
    }

    /** Withdraw those that are on none of `kept`. */
    method TakeLeave(kept: seq<NetworkInterface>)
      modifies this
      ensures drawn == old(drawn) && sent == old(sent) + Farewells(old(publishers), kept, valid)
      ensures |publishers| == |old(publishers)|
      ensures forall i :: 0 <= i < |publishers| ==>
                publishers[i].scope == old(publishers)[i].scope &&
                (OnAny(kept, publishers[i].scope) ==> publishers[i] == old(publishers)[i])
    {
      ghost var was := publishers;
      for i := 0 to |publishers|
        invariant drawn == old(drawn) && |publishers| == |was| && sent == old(sent) + Farewells(was[..i], kept, valid)
        invariant forall k :: 0 <= k < |was| ==> publishers[k].scope == was[k].scope
        invariant forall k :: 0 <= k < |was| && (k >= i || OnAny(kept, was[k].scope)) ==> publishers[k] == was[k]
      {
        assert was[..i + 1][..i] == was[..i];
        if !OnAny(kept, publishers[i].scope) {
          SendWithdrawal(i);
        }
      }
      assert was[..|was|] == was;
    }

    /** `RefreshInterfacesLockedLifecycle`: what it does to the publishers. */
    method RefreshInterfaces(list: seq<NetworkInterface>, config: Config, draws: seq<Draw>) returns (ok: bool)
      modifies this
      ensures View() == Perform(old(View()), Refresh(list, config, draws), valid)
    {
      var interfaces := CanonicalInterfaces(list);
      ghost var start := Service([], sent + Farewells(publishers, interfaces, valid), drawn);
      hide CanonicalInterfaces, Farewells;
      TakeLeave(interfaces);
      var current := publishers;
      publishers := [];
      ok := true;
      for i := 0 to |interfaces|
        invariant ok && Build(View(), ok) ==
                  Rebuilt(old(publishers), start, interfaces[..i], draws, Some(config), valid)
      {
        assert interfaces[..i + 1][..i] == interfaces[..i];
        var k := FindPublisher(current, interfaces[i].scope);
        SameFind(current, old(publishers), interfaces[i].scope);
        if k < |current| {
          assert OnAny(interfaces, current[k].scope);
          publishers := publishers + [current[k]];
        } else {
          ok := Create(interfaces[i].scope, DrawAt(draws, i), Some(config));
          if !ok {
            StaysFailed(old(publishers), start, interfaces, i + 1, draws, Some(config), valid);
            return;
          }
        }
      }
      assert interfaces[..|interfaces|] == interfaces;
    }

    method Create(scope: Scope, draw: Draw, config: Option<Config>) returns (ok: bool)
      modifies this
      ensures Build(View(), ok) == Made(old(View()), scope, draw, config, valid)
    {
      var token := GenerateToken(draw.fills, 4);
      if token.None? {
        return false;
      }
      drawn := drawn + [token.value];
      if !draw.accepted {
        return false;
      }
      publishers := publishers + [Publisher(scope, token.value, 1, false)];
      if config.Some? {
        var _ := SendAnnounce(|publishers| - 1, config.value, draw);
      }
      return true;
    }

    /** New publishers for every interface, as on start and on waking. */
    method Begin(list: seq<NetworkInterface>, draws: seq<Draw>) returns (ok: bool)
      modifies this
      ensures View() == Perform(old(View()), Operation.Begin(list, draws), valid)
    {
      var interfaces := CanonicalInterfaces(list);
      hide CanonicalInterfaces;
      publishers := [];
      ghost var start := View();
      ok := true;
      for i := 0 to |interfaces|
        invariant ok && Build(View(), ok) == Rebuilt([], start, interfaces[..i], draws, None, valid)
      {
        assert interfaces[..i + 1][..i] == interfaces[..i];
        ok := Create(interfaces[i].scope, DrawAt(draws, i), None);
        if !ok {
          StaysFailed([], start, interfaces, i + 1, draws, None, valid);
          return;
        }
      }
      assert interfaces[..|interfaces|] == interfaces;
    }

    method Shutdown()
      modifies this
      ensures View() == Perform(old(View()), Operation.Shutdown, valid)
    {
      TakeLeave([]);
      publishers := [];
    }
  }

  lemma {:induction false} SameFind(a: seq<Publisher>, b: seq<Publisher>, scope: Scope)
    requires |a| == |b| && forall i :: 0 <= i < |a| ==> a[i].scope == b[i].scope
    ensures FindPublisher(a, scope) == FindPublisher(b, scope)
  {
    if |a| > 0 {
      SameFind(a[1..], b[1..], scope);
    }
  }

  /** Once a publisher cannot be made, the rest of the interfaces are not looked at. */
  lemma {:induction false} StaysFailed(previous: seq<Publisher>, start: Service, interfaces: seq<NetworkInterface>,
                                       k: nat, draws: seq<Draw>, config: Option<Config>, valid: LabelValidator)
    requires k <= |interfaces| && !Rebuilt(previous, start, interfaces[..k], draws, config, valid).ok
    ensures Rebuilt(previous, start, interfaces, draws, config, valid) ==
            Rebuilt(previous, start, interfaces[..k], draws, config, valid)
  {
    if k == |interfaces| {
      assert interfaces[..k] == interfaces;
    } else {
      var front := interfaces[..|interfaces| - 1];
      assert front[..k] == interfaces[..k];
      StaysFailed(previous, start, front, k, draws, config, valid);
    }
  }

  // ----- End to end -----

  /** `commands` is a receiver's run in which what comes from `source` on `observer` is what the service sent, in
      order, with any losses: `carried[i]` is the place in the log of the datagram received at `i`. */
  ghost predicate Carried(commands: seq<Command>, observer: Scope, source: IpAddress, sent: seq<Datagram>,
                          carried: seq<nat>, valid: LabelValidator)
  {
    && |carried| == |commands|
    && (forall i :: 0 <= i < |commands| && From(commands[i], observer, source) ==>
          carried[i] < |sent| && Sendable(sent[carried[i]], valid)
            && commands[i].payload == Bytes(sent[carried[i]], valid))
    && (forall i, j ::
          0 <= i < j < |commands| && From(commands[i], observer, source) && From(commands[j], observer, source) ==>
            carried[i] < carried[j])
  }

  predicate From(command: Command, observer: Scope, source: IpAddress) {
    command.Receive? && command.metadata.observer == observer && command.metadata.source == source
  }

  /** What a receiver reads from a datagram of the log. */
  lemma ReadsAsSent(command: Command, observer: Scope, source: IpAddress, d: Datagram, key: Key, valid: LabelValidator)
    requires From(command, observer, source) && Sendable(d, valid) && command.payload == Bytes(d, valid)
    requires key.observer == observer && key.source == source
    ensures Speaks(command, key, valid) == if key.token == d.token then Some(d.sequence) else None
  {
    ParseEncoded(d.kind, d.sequence, d.token, d.port, d.ttl, d.name, valid);
    hide Parse, Encode;
  }

  lemma CarriedInOrder(commands: seq<Command>, observer: Scope, source: IpAddress, token: Token, sent: seq<Datagram>,
                       carried: seq<nat>, drawn: seq<Token>, valid: LabelValidator)
    requires LogOk(sent, drawn, valid) && Carried(commands, observer, source, sent, carried, valid)
    ensures InOrder(commands, Key(observer, source, token), valid)
  {
    var key := Key(observer, source, token);
    forall i, j | 0 <= i < j < |commands| && Speaks(commands[i], key, valid).Some?
      && Speaks(commands[j], key, valid).Some?
      ensures Speaks(commands[i], key, valid).value < Speaks(commands[j], key, valid).value
    {
      assert From(commands[i], observer, source) && From(commands[j], observer, source);
      ReadsAsSent(commands[i], observer, source, sent[carried[i]], key, valid);
      ReadsAsSent(commands[j], observer, source, sent[carried[j]], key, valid);
    }
  }

  /** End to end: whatever a service with fresh tokens sends, a receiver that gets it in order, with any losses and
      whatever else happens to it, never judges stale, duplicate or conflicting. */
  lemma DeliveredNeverRejected(ops: seq<Operation>, commands: seq<Command>, command: Command, carried: seq<nat>,
                               observer: Scope, source: IpAddress, valid: LabelValidator)
    requires NoRepeat(Performed(ops, valid).drawn) && From(command, observer, source)
    requires Carried(commands + [command], observer, source, Performed(ops, valid).sent, carried, valid)
    ensures !OutOfOrder(DispositionOf(Run(commands, valid).cache, command, valid))
  {
    var s, all := Performed(ops, valid), commands + [command];
    RunGood(ops, valid);
    hide Performed, Run, Received;
    assert all[|commands|] == command;
    var d := s.sent[carried[|commands|]];
    CarriedInOrder(all, observer, source, d.token, s.sent, carried, s.drawn, valid);
    ReadsAsSent(command, observer, source, d, Key(observer, source, d.token), valid);
    InOrderNeverRejected(commands, command, Key(observer, source, d.token), valid);
  }
}
