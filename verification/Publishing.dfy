/** The publishing half of the discovery service: one announcer per interface, its token
    and its sequence numbers. */
module Publishing {
  import opened Common
  import opened BoundedSelection
  import opened DiscoveryTypes
  import opened DiscoveryWire
  import opened InterfaceRegistry

  const ADVERTISED_TTL := 15

  // ----- Interfaces -----

  predicate IsValidInterface(n: NetworkInterface) {
    n.scope.generation != 0 && n.index != 0 && n.scope.family == n.address.family
    && n.prefixLength <= if n.scope.family == Ipv4 then 32 else 128
  }

  predicate InterfaceLess(a: NetworkInterface, b: NetworkInterface) {
    if a.scope != b.scope then ScopeLess(a.scope, b.scope)
    else if a.index != b.index then a.index < b.index
    else if a.address != b.address then AddressLess(a.address, b.address)
    else a.prefixLength < b.prefixLength
  }

  predicate OnScope(a: NetworkInterface, b: NetworkInterface) {
    a.scope == b.scope
  }

  lemma InterfaceOrder()
    ensures Ordering(InterfaceLess, OnScope)
  {
    AddressOrder();
  }

  function ValidOnes(list: seq<NetworkInterface>): seq<NetworkInterface> {
    if |list| == 0 then []
    else
      var front, last := ValidOnes(list[..|list| - 1]), list[|list| - 1];
      if IsValidInterface(last) then front + [last] else front
  }

  /** The interfaces the service works on for a reported list. */
  function CanonicalInterfaces(list: seq<NetworkInterface>): seq<NetworkInterface> {
    SelectFrom(ValidOnes(list), MAX_SCOPES, InterfaceLess, OnScope)
  }

  lemma CanonicalInterfacesSelect(list: seq<NetworkInterface>)
    ensures Selects(CanonicalInterfaces(list), Members(ValidOnes(list)), MAX_SCOPES, InterfaceLess, OnScope)
  {
    InterfaceOrder();
    SelectFromSelects(ValidOnes(list), MAX_SCOPES, InterfaceLess, OnScope);
  }

  lemma ScopesDistinct(list: seq<NetworkInterface>)
    ensures forall i, j :: 0 <= i < j < |CanonicalInterfaces(list)| ==>
              CanonicalInterfaces(list)[i].scope != CanonicalInterfaces(list)[j].scope
  {
    CanonicalInterfacesSelect(list);
    var r := CanonicalInterfaces(list);
    assert forall i, j :: 0 <= i < j < |r| ==> !OnScope(r[i], r[j]);
  }

  // ----- One publisher -----

  type Token = t: seq<u8> | |t| == TOKEN_SIZE witness [0, 0, 0, 0, 0, 0, 0, 0, 0, 0, 0, 0, 0, 0, 0, 0]

  /** When messages fall due is the timer's affair; here is what they carry. */
  datatype Publisher = Publisher(scope: Scope, token: Token, sequence: u64, announced: bool)

  datatype Datagram = Datagram(scope: Scope, kind: MessageKind, sequence: u64, token: Token, port: u16, ttl: u16,
                               name: seq<u8>)

  datatype Config = Config(port: u16, name: seq<u8>)

  /** `GenerateToken`: what the entropy source fills in, tried up to `attempts` times for a nonzero token. */
  function GenerateToken(fills: seq<Option<Token>>, attempts: nat): (r: Option<Token>)
    ensures r.Some? ==> !AllZero(r.value)
  {
    if attempts == 0 || |fills| == 0 || fills[0].None? then None
    else if !AllZero(fills[0].value) then fills[0]
    else GenerateToken(fills[1..], attempts - 1)
  }

  /** What the entropy source would fill in, and whether the cache takes the token as local. */
  datatype Draw = Draw(fills: seq<Option<Token>>, accepted: bool)

  function DrawAt(draws: seq<Draw>, i: nat): Draw {
    if i < |draws| then draws[i] else Draw([], false)
  }

  predicate Sendable(d: Datagram, valid: LabelValidator) {
    Encodable(d.kind, d.sequence, d.token, d.port, d.ttl, d.name, valid)
  }

  /** The bytes handed to the transport. */
  function Bytes(d: Datagram, valid: LabelValidator): seq<u8>
    requires Sendable(d, valid)
  {
    Encode(d.kind, d.sequence, d.token, d.port, d.ttl, d.name)
  }

  function Announcement(p: Publisher, config: Config): Datagram {
    Datagram(p.scope, Announce, p.sequence, p.token, config.port, ADVERTISED_TTL, config.name)
  }

  function Withdrawal(p: Publisher): Datagram {
    Datagram(p.scope, Withdraw, p.sequence, p.token, 0, 0, [])
  }

  predicate Exhausted(p: Publisher) {
    p.announced && p.sequence == U64_MAX
  }

  /** `SendAnnounceLocked` while sequence numbers last. */
  function AnnounceOne(p: Publisher, config: Config, valid: LabelValidator): (Publisher, seq<Datagram>)
    requires !Exhausted(p)
  {
    var next := if p.announced then p.(sequence := p.sequence + 1) else p;
    var d := Announcement(next, config);
    if Sendable(d, valid) then (next.(announced := true), [d]) else (next, [])
  }

  /** `SendWithdrawalLocked`. */
  function WithdrawOne(p: Publisher, valid: LabelValidator): (Publisher, seq<Datagram>) {
    if !p.announced || p.sequence == U64_MAX then (p, [])
    else
      var next := p.(sequence := p.sequence + 1, announced := false);
      (next, if Sendable(Withdrawal(next), valid) then [Withdrawal(next)] else [])
  }

  /** What one operation on a publisher leaves, sends and draws. */
  datatype Act = Act(publisher: Publisher, sent: seq<Datagram>, drawn: seq<Token>)

  /** `RotateLocked`: take leave under the old token, start over under a new one. */
  function RotateOne(p: Publisher, config: Config, draw: Draw, valid: LabelValidator): Act {
    var token := GenerateToken(draw.fills, 4);
    if token.None? then Act(p, [], [])
    else
      var farewell, renewed := WithdrawOne(p, valid).1, Publisher(p.scope, token.value, 1, false);
      if !draw.accepted then Act(renewed, farewell, [token.value])
      else
        var (next, sent) := AnnounceOne(renewed, config, valid);
        Act(next, farewell + sent, [token.value])
  }

  function AnnounceOrRotate(p: Publisher, config: Config, draw: Draw, valid: LabelValidator): Act {
    if Exhausted(p) then RotateOne(p, config, draw, valid)
    else
      var (next, sent) := AnnounceOne(p, config, valid);
      Act(next, sent, [])
  }

  // ----- What a log of datagrams keeps -----

  ghost predicate NoRepeat(drawn: seq<Token>) {
    forall i, j :: 0 <= i < j < |drawn| ==> drawn[i] != drawn[j]
  }

  /** Under each token, sequence numbers rise and a withdrawal is the last word. */
  ghost predicate Ordered(sent: seq<Datagram>) {
    forall i, j :: 0 <= i < j < |sent| && sent[i].token == sent[j].token ==>
      sent[i].sequence < sent[j].sequence && sent[i].kind == Announce
  }

  ghost predicate LogOk(sent: seq<Datagram>, drawn: seq<Token>, valid: LabelValidator) {
    Ordered(sent) && forall i :: 0 <= i < |sent| ==> sent[i].token in drawn && Sendable(sent[i], valid)
  }

  /** `p` may still speak under its token: it has not taken leave, and nothing sent is above its sequence. */
  ghost predicate Live(p: Publisher, sent: seq<Datagram>, drawn: seq<Token>) {
    && p.token in drawn && !AllZero(p.token) && p.sequence >= 1
    && forall i :: 0 <= i < |sent| && sent[i].token == p.token ==>
         sent[i].kind == Announce && p.announced && sent[i].sequence <= p.sequence
  }

  /** Later datagrams and tokens leave alone whoever speaks under another token. */
  lemma LiveFrame(p: Publisher, sent: seq<Datagram>, more: seq<Datagram>, drawn: seq<Token>, tokens: seq<Token>)
    requires Live(p, sent, drawn) && forall i :: 0 <= i < |more| ==> more[i].token != p.token
    ensures Live(p, sent + more, drawn + tokens)
  {
  }

  lemma AnnounceLive(p: Publisher, config: Config, sent: seq<Datagram>, drawn: seq<Token>, valid: LabelValidator)
    requires LogOk(sent, drawn, valid) && Live(p, sent, drawn) && !Exhausted(p)
    ensures var (next, more) := AnnounceOne(p, config, valid);
            && LogOk(sent + more, drawn, valid) && Live(next, sent + more, drawn) && next.token == p.token
            && next.scope == p.scope && forall i :: 0 <= i < |more| ==> more[i].token == p.token
  {
  }

  lemma WithdrawLog(p: Publisher, sent: seq<Datagram>, drawn: seq<Token>, valid: LabelValidator)
    requires LogOk(sent, drawn, valid) && Live(p, sent, drawn)
    ensures var (next, more) := WithdrawOne(p, valid);
            && LogOk(sent + more, drawn, valid)
            && next.scope == p.scope && forall i :: 0 <= i < |more| ==> more[i].token == p.token
  {
  }

  /** A token never drawn before makes a publisher nobody has heard. */
  lemma FreshLive(scope: Scope, token: Token, sent: seq<Datagram>, drawn: seq<Token>, valid: LabelValidator)
    requires LogOk(sent, drawn, valid) && !AllZero(token) && NoRepeat(drawn + [token])
    ensures Live(Publisher(scope, token, 1, false), sent, drawn + [token]) && LogOk(sent, drawn + [token], valid)
    ensures token !in drawn
  {
    var all := drawn + [token];
    assert forall i :: 0 <= i < |drawn| ==> all[i] == drawn[i];
    assert all[|drawn|] == token;
  }

  /** Rotation, too, leaves a live publisher and an ordered log, and touches only its own tokens. */
  lemma RotateLive(p: Publisher, config: Config, draw: Draw, sent: seq<Datagram>, drawn: seq<Token>,
                   valid: LabelValidator)
    requires LogOk(sent, drawn, valid) && Live(p, sent, drawn)
    requires NoRepeat(drawn + RotateOne(p, config, draw, valid).drawn)
    ensures var act := RotateOne(p, config, draw, valid);
            && LogOk(sent + act.sent, drawn + act.drawn, valid)
            && Live(act.publisher, sent + act.sent, drawn + act.drawn)
            && act.publisher.scope == p.scope && (act.publisher.token == p.token || act.publisher.token in act.drawn)
            && (forall t :: t in act.drawn ==> t !in drawn)
            && forall i :: 0 <= i < |act.sent| ==> act.sent[i].token == p.token || act.sent[i].token in act.drawn
  {
    var token := GenerateToken(draw.fills, 4);
    if token.Some? {
      var farewell, renewed := WithdrawOne(p, valid).1, Publisher(p.scope, token.value, 1, false);
      WithdrawLog(p, sent, drawn, valid);
      FreshLive(p.scope, token.value, sent + farewell, drawn, valid);
      hide LogOk, Live, WithdrawOne;
      if draw.accepted {
        AnnounceLive(renewed, config, sent + farewell, drawn + [token.value], valid);
        var (next, more) := AnnounceOne(renewed, config, valid);
        assert sent + farewell + more == sent + (farewell + more);
      }
    } else {
      assert sent + [] == sent && drawn + [] == drawn;
    }
  }

  lemma ActLive(p: Publisher, config: Config, draw: Draw, sent: seq<Datagram>, drawn: seq<Token>, valid: LabelValidator)
    requires LogOk(sent, drawn, valid) && Live(p, sent, drawn)
    requires NoRepeat(drawn + AnnounceOrRotate(p, config, draw, valid).drawn)
    ensures var act := AnnounceOrRotate(p, config, draw, valid);
            && LogOk(sent + act.sent, drawn + act.drawn, valid)
            && Live(act.publisher, sent + act.sent, drawn + act.drawn)
            && act.publisher.scope == p.scope && (act.publisher.token == p.token || act.publisher.token in act.drawn)
            && (forall t :: t in act.drawn ==> t !in drawn)
            && forall i :: 0 <= i < |act.sent| ==> act.sent[i].token == p.token || act.sent[i].token in act.drawn
  {
    if Exhausted(p) {
      RotateLive(p, config, draw, sent, drawn, valid);
    } else {
      AnnounceLive(p, config, sent, drawn, valid);
      assert drawn + [] == drawn;
    }
  }
}
