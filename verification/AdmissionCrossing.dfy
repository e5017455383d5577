/** Connections that two peers open to each other at the same time: which of them is kept. */
module AdmissionCrossing {
  import opened Common
  import opened ByteOrder
  import opened Admission
  import opened AdmissionInv

  lemma SmallerSymmetric(a: seq<u8>, b: seq<u8>)
    ensures Smaller(a, b) == Smaller(b, a)
  {
    BytesTotal(a, b);
    if BytesLess(a, b) && BytesLess(b, a) {
      BytesTransitive(a, b, a);
      BytesTotal(a, a);
    }
  }

  /** The connection was initiated by the smaller of its two keys. */
  predicate Canonical(e: Entry) {
    e.bound && EntryInitiator(e) == Smaller(e.localKey, e.peerKey)
  }

  /** The command gives up the lease of `e` or ends its owner's window. */
  predicate GivesUp(command: Command, e: Entry) {
    match command
    case Retire(owner) => owner == e.owner
    case Close(owner) => owner == e.owner
    case Binding(_, id, lease, _, _) => id == e.id && lease == e.lease
    case Releasing(id, lease) => id == e.id && lease == e.lease
    case _ => false
  }

  /** Some entry is `e`, except perhaps for being visible by now. */
  ghost predicate Kept(entries: seq<Entry>, e: Entry) {
    exists x :: x in entries && x.(visible := e.visible) == e
  }

  lemma NeverYields(e: Entry, owner: u64, request: Request)
    requires Canonical(e) && Competes(e, owner, request)
    ensures !Yields(e, request)
  {
    SmallerSymmetric(request.localKey, request.peerKey);
  }

  lemma WithoutKept(entries: seq<Entry>, which: Which, e: Entry)
    requires e in entries && !Picks(which, e)
    ensures Kept(Without(entries, which), e)
  {
    WithoutFrom(entries, which);
    assert e.(visible := e.visible) == e;
  }

  lemma UpdateKept(entries: seq<Entry>, i: nat, x: Entry, e: Entry)
    requires i < |entries| && e in entries && (entries[i] != e || x == e || x == e.(visible := true))
    ensures Kept(entries[i := x], e)
  {
    var k :| 0 <= k < |entries| && entries[k] == e;
    var after := entries[i := x];
    assert after[k] in after && (after[k] == e || after[k] == x);
    assert after[k].(visible := e.visible) == e;
  }

  lemma BindKeeps(s: State, owner: u64, id: seq<u8>, lease: u64, request: Request, window: u64, e: Entry)
    requires Inv(s) && e in s.entries && Canonical(e) && !(id == e.id && lease == e.lease)
    ensures Kept(Bind(s, owner, id, lease, request, window).0.entries, e)
  {
    hide Without, Limited, Leased, Owned, Backed, OwnersOk;
    WithoutKept(s.entries, ByLease(id, lease), e);
    if Bind(s, owner, id, lease, request, window).1.Bound? {
      var i := Find(s.entries, id);
      var d := FindDuplicate(s.entries, i, owner, request, 0);
      var b := BoundEntry(s.entries[i], request, s.owners[FindOwner(s.owners, owner)].windowDeadline);
      assert s.entries[i] != e;
      UpdateKept(s.entries, i, b, e);
      if d < |s.entries| {
        var k :| 0 <= k < |s.entries| && s.entries[k] == e;
        var after := s.entries[i := b];
        if k == d {
          NeverYields(e, owner, request);
        } else {
          Others(s.entries, k, d);
          assert after[k] == e;
          WithoutKept(after, ById(after[d].id), e);
        }
      }
    }
  }

  /** A bound connection initiated by the smaller key survives every operation but its own release and the end of
      its owner's window. */
  lemma CanonicalSurvives(s: State, command: Command, e: Entry)
    requires Inv(s) && e in s.entries && Canonical(e) && !GivesUp(command, e)
    ensures Kept(Step(s, command).entries, e)
  {
    hide Inv, Bind, Reserve, Without, OpenWindow, RegisterOwner;
    match command
    case Retire(owner) => WithoutKept(s.entries, AllOf(owner), e);
                          KeptSelf(s.entries, e);
    case Close(owner) => WithoutKept(s.entries, BoundOf(owner), e);
                         KeptSelf(s.entries, e);
    case Reserving(owner, id, source, user, now) => ReserveKeeps(s, command, e);
    case Binding(owner, id, lease, request, window) => BindKeeps(s, owner, id, lease, request, window, e);
    case Showing(id, lease) => ShowKeeps(s, id, lease, e);
    case Releasing(id, lease) => WithoutKept(s.entries, ByLease(id, lease), e);
    case Register => RegisterKeeps(s, command, e);
    case Open(owner, now, duration) => RegisterKeeps(s, command, e);
  }

  lemma KeptSelf(entries: seq<Entry>, e: Entry)
    requires e in entries
    ensures Kept(entries, e)
  {
    assert e.(visible := e.visible) == e;
  }

  lemma RegisterKeeps(s: State, command: Command, e: Entry)
    requires e in s.entries && (command.Register? || command.Open?)
    ensures Kept(Step(s, command).entries, e)
  {
    KeptSelf(s.entries, e);
  }

  lemma ShowKeeps(s: State, id: seq<u8>, lease: u64, e: Entry)
    requires e in s.entries
    ensures Kept(MarkVisible(s, id, lease).0.entries, e)
  {
    KeptSelf(s.entries, e);
    var i := Find(s.entries, id);
    if i < |s.entries| {
      UpdateKept(s.entries, i, s.entries[i].(visible := true), e);
    }
  }

  lemma ReserveKeeps(s: State, command: Command, e: Entry)
    requires e in s.entries && command.Reserving?
    ensures Kept(Step(s, command).entries, e)
  {
    KeptSelf(s.entries, e);
    var (t, lease) := Reserve(s, command.owner, command.id, command.source, command.user, command.now);
    assert t.entries == s.entries || (|t.entries| == |s.entries| + 1 && t.entries[..|s.entries|] == s.entries) by {
      hide Crowded, Pruned;
    }
    hide Reserve;
    assert e in t.entries by {
      assert t.entries != s.entries ==> e in t.entries[..|s.entries|];
    }
    KeptSelf(t.entries, e);
  }

  /** The commands leave alone the lease and the window of `e`. */
  ghost predicate Spared(commands: seq<Command>, e: Entry) {
    forall k :: 0 <= k < |commands| ==> !GivesUp(commands[k], e)
  }

  /** Whatever else is done, for however long. */
  lemma {:induction false} CanonicalLasts(s: State, commands: seq<Command>, e: Entry)
    requires Inv(s) && e in s.entries && Canonical(e) && Spared(commands, e)
    ensures Inv(Execute(s, commands)) && Kept(Execute(s, commands).entries, e)
    decreases |commands|
  {
    if |commands| == 0 {
      KeptSelf(s.entries, e);
    } else {
      hide Inv, Step, Canonical, GivesUp;
      assert !GivesUp(commands[0], e);
      CanonicalSurvives(s, commands[0], e);
      StepInv(s, commands[0]);
      var next := Step(s, commands[0]);
      var x :| x in next.entries && x.(visible := e.visible) == e;
      SameButVisible(x, e, commands[1..]);
      CanonicalLasts(next, commands[1..], x);
      var y :| y in Execute(s, commands).entries && y.(visible := x.visible) == x;
      assert y.(visible := e.visible) == e;
    }
  }

  lemma SameButVisible(x: Entry, e: Entry, commands: seq<Command>)
    requires x.(visible := e.visible) == e && Canonical(e)
    ensures Canonical(x) && (forall command :: GivesUp(command, x) == GivesUp(command, e))
  {
  }

  // ----- One of the connections of a pair of keys -----

  /** A reservation about to be bound. */
  datatype Offer = Offer(owner: u64, id: seq<u8>, lease: u64, request: Request, window: u64)

  ghost predicate Ready(s: State, offer: Offer) {
    && MayBind(s, offer.owner, offer.id, offer.lease, offer.request, offer.window)
    && IsRole(offer.request.role) && offer.request.localKey != offer.request.peerKey
  }

  function OfferInitiator(offer: Offer): seq<u8> {
    InitiatorKey(offer.request.role, offer.request.localKey, offer.request.peerKey)
  }

  /** The connection is the one the smaller of the two keys initiated. */
  predicate BySmaller(offer: Offer) {
    OfferInitiator(offer) == Smaller(offer.request.localKey, offer.request.peerKey)
  }

  function BindOffer(s: State, offer: Offer): (State, BindResult) {
    Bind(s, offer.owner, offer.id, offer.lease, offer.request, offer.window)
  }

  /** Whatever is bound for the pair of keys is hidden and was initiated by the other key. */
  ghost predicate Unopposed(s: State, offer: Offer) {
    forall e :: e in s.entries && Competes(e, offer.owner, offer.request) ==>
      !e.visible && EntryInitiator(e) != OfferInitiator(offer)
  }

  /** The connection of the smaller key is bound if and only if it is unopposed. */
  lemma SmallerBindsExactly(s: State, offer: Offer)
    requires Inv(s) && Ready(s, offer) && BySmaller(offer)
    ensures BindOffer(s, offer).1.Bound? <==> Unopposed(s, offer)
  {
    hide Limited, Leased, Owned, Backed, OwnersOk, Without, FindOwner, Smaller;
    var i := Find(s.entries, offer.id);
    var d := FindDuplicate(s.entries, i, offer.owner, offer.request, 0);
    assert !Competes(s.entries[i], offer.owner, offer.request);
    forall e | e in s.entries && Competes(e, offer.owner, offer.request) ensures d < |s.entries| && s.entries[d] == e {
      var j :| 0 <= j < |s.entries| && s.entries[j] == e;
      OneCompetitor(s.entries, i, offer.owner, offer.request, d, j);
    }
    if d < |s.entries| {
      assert s.entries[d] in s.entries && Competes(s.entries[d], offer.owner, offer.request);
    }
  }

  /** The entry a bound offer leaves. */
  ghost predicate Holder(e: Entry, offer: Offer) {
    && e.bound && e.id == offer.id && e.lease == offer.lease && e.owner == offer.owner
    && e.localKey == offer.request.localKey && e.peerKey == offer.request.peerKey && e.role == offer.request.role
  }

  lemma BindLeaves(s: State, offer: Offer) returns (e: Entry)
    requires Inv(s) && BindOffer(s, offer).1.Bound?
    ensures e in BindOffer(s, offer).0.entries && Holder(e, offer)
  {
    hide Limited, Leased, Owned, Backed, OwnersOk, Without, FindOwner, Find;
    var i := Find(s.entries, offer.id);
    var d := FindDuplicate(s.entries, i, offer.owner, offer.request, 0);
    e := BoundEntry(s.entries[i], offer.request, s.owners[FindOwner(s.owners, offer.owner)].windowDeadline);
    var after := s.entries[i := e];
    assert after[i] in after;
    if d < |s.entries| {
      Others(s.entries, d, i);
      WithoutFrom(after, ById(after[d].id));
    }
  }

  /** The offer's connection is bound, and no other is for its owner and its pair of keys. */
  ghost predicate OnlyBound(s: State, offer: Offer) {
    && (exists e :: e in s.entries && Holder(e, offer))
    && forall e :: e in s.entries && Competes(e, offer.owner, offer.request) ==> e.id == offer.id
  }

  lemma OneBound(s: State, offer: Offer, x: Entry)
    requires Apart(s.entries) && x in s.entries && Holder(x, offer)
    ensures OnlyBound(s, offer)
  {
    var i :| 0 <= i < |s.entries| && s.entries[i] == x;
    forall e | e in s.entries && Competes(e, offer.owner, offer.request) ensures e.id == offer.id {
      var j :| 0 <= j < |s.entries| && s.entries[j] == e;
      Alone(s.entries, i, j);
    }
  }

  lemma Alone(entries: seq<Entry>, i: nat, j: nat)
    requires Apart(entries) && i < |entries| && j < |entries|
    ensures i == j || Together(entries[i], entries[j])
  {
    if i != j {
      Others(entries, i, j);
    }
  }

  /** The commands neither release the offer's lease nor bind it again, nor end its owner's window. */
  ghost predicate KeepsOffer(commands: seq<Command>, offer: Offer) {
    forall k :: 0 <= k < |commands| ==>
      match commands[k]
      case Retire(owner) => owner != offer.owner
      case Close(owner) => owner != offer.owner
      case Binding(_, id, lease, _, _) => id != offer.id || lease != offer.lease
      case Releasing(id, lease) => id != offer.id || lease != offer.lease
      case _ => true
  }

  lemma HolderSpared(commands: seq<Command>, offer: Offer, e: Entry)
    requires KeepsOffer(commands, offer) && Holder(e, offer)
    ensures Spared(commands, e)
  {
  }

  lemma HolderCanonical(offer: Offer, e: Entry)
    requires Holder(e, offer) && BySmaller(offer)
    ensures Canonical(e)
  {
  }

  /** Crossing connections settle. From any state and through any commands, other bindings of the same keys among them:
      once the smaller key's connection comes to be bound unopposed, it is the only one bound for its keys for as long
      as it is not given up. */
  lemma SettleCrossing(s: State, before: seq<Command>, offer: Offer, after: seq<Command>)
    requires Inv(s) && BySmaller(offer) && KeepsOffer(after, offer)
    requires Ready(Execute(s, before), offer) && Unopposed(Execute(s, before), offer)
    ensures OnlyBound(Execute(BindOffer(Execute(s, before), offer).0, after), offer)
  {
    hide Inv, Ready, Execute, Holder, BySmaller, KeepsOffer, Canonical, Bind, Unopposed;
    var t := Execute(s, before);
    ExecuteInv(s, before);
    SmallerBindsExactly(t, offer);
    BindInv(t, offer.owner, offer.id, offer.lease, offer.request, offer.window);
    var e := BindLeaves(t, offer);
    HolderSpared(after, offer, e);
    HolderCanonical(offer, e);
    var u := BindOffer(t, offer).0;
    CanonicalLasts(u, after, e);
    var x :| x in Execute(u, after).entries && x.(visible := e.visible) == e;
    HolderStays(x, e, offer);
    InvApart(Execute(u, after));
    OneBound(Execute(u, after), offer, x);
  }

  lemma InvApart(s: State)
    requires Inv(s)
    ensures Apart(s.entries)
  {
  }

  lemma HolderStays(x: Entry, e: Entry, offer: Offer)
    requires Holder(e, offer) && x.(visible := e.visible) == e
    ensures Holder(x, offer)
  {
  }

  /** One peer's part in a crossing: what it does before and after it binds the connection `offer`. */
  datatype Side = Side(start: State, before: seq<Command>, offer: Offer, after: seq<Command>)

  function EndOf(side: Side): State {
    Execute(BindOffer(Execute(side.start, side.before), side.offer).0, side.after)
  }

  ghost predicate Settles(side: Side) {
    && Inv(side.start) && KeepsOffer(side.after, side.offer)
    && Ready(Execute(side.start, side.before), side.offer) && Unopposed(Execute(side.start, side.before), side.offer)
  }

  /** The two offers are the two ends of one connection. */
  predicate OneConnection(p: Offer, q: Offer) {
    && p.request.localKey == q.request.peerKey && p.request.peerKey == q.request.localKey
    && (p.request.role == Initiator <==> q.request.role == Responder) && IsRole(p.request.role)
    && IsRole(q.request.role)
  }

  /** Two peers converge. Of the connections between two keys, both ends keep the one that the smaller key initiated and
      no other, whatever each did before, in between and after. It is enough that one end's is the smaller key's. */
  lemma PeersConverge(p: Side, q: Side)
    requires Settles(p) && Settles(q) && OneConnection(p.offer, q.offer) && BySmaller(p.offer)
    ensures OfferInitiator(p.offer) == OfferInitiator(q.offer)
    ensures OnlyBound(EndOf(p), p.offer) && OnlyBound(EndOf(q), q.offer)
  {
    SmallerSymmetric(p.offer.request.localKey, p.offer.request.peerKey);
    hide Inv, Ready, Execute, OnlyBound, KeepsOffer, Unopposed, Smaller;
    SettleCrossing(p.start, p.before, p.offer, p.after);
    SettleCrossing(q.start, q.before, q.offer, q.after);
  }
}
